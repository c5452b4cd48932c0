/**
 * The variable and test nodes of nodes/variable_nodes.py. Setting a variable
 * writes the context's variable map and emits an assignment; reading a
 * variable and testing for a file only build text. A connected input
 * contributes its source node's "value" property, never the source's own
 * emitted expression.
 */
module VariableNodes {
  import opened Wrappers
  import opened Props
  import opened PortTypes
  import opened GraphModel
  import opened Context
  import opened Lines
  import OperationNodes

  const SetVariableKind := "set_variable"
  const GetVariableKind := "get_variable"
  const FileExistsKind := "file_exists"

  // ---- Constructors: the fixed port layouts and default properties ----

  function NewSetVariable(id: NodeId, x: Coord, y: Coord, portId: nat -> PortId): Node {
    Node(id, SetVariableKind, "Set Variable", x, y, map["variable" := StrValue("VAR"), "value" := StrValue("")],
      [Port(portId(0), "Exec", Exec, Input), Port(portId(1), "Value", String, Input)],
      [Port(portId(2), "Exec", Exec, Output)])
  }

  function NewGetVariable(id: NodeId, x: Coord, y: Coord, portId: nat -> PortId): Node {
    Node(id, GetVariableKind, "Get Variable", x, y, map["variable" := StrValue("VAR")],
      [], [Port(portId(0), "Value", Variable, Output)])
  }

  function NewFileExists(id: NodeId, x: Coord, y: Coord, portId: nat -> PortId): Node {
    Node(id, FileExistsKind, "File Exists", x, y, map["path" := StrValue("")],
      [Port(portId(0), "Path", Path, Input)], [Port(portId(1), "Result", String, Output)])
  }

  /**
   * The constructors' layouts: node type, title, port names, types and
   * directions in order, and the default properties.
   */
  lemma Layouts(id: NodeId, x: Coord, y: Coord, portId: nat -> PortId)
    ensures var n := NewSetVariable(id, x, y, portId);
      && n.nodeType == "set_variable" && n.title == "Set Variable"
      && |n.inputs| == 2
      && n.inputs[0].name == "Exec" && n.inputs[0].portType == Exec && n.inputs[0].direction == Input
      && n.inputs[1].name == "Value" && n.inputs[1].portType == String && n.inputs[1].direction == Input
      && |n.outputs| == 1
      && n.outputs[0].name == "Exec" && n.outputs[0].portType == Exec && n.outputs[0].direction == Output
      && n.properties == map["variable" := StrValue("VAR"), "value" := StrValue("")]
    ensures var n := NewGetVariable(id, x, y, portId);
      && n.nodeType == "get_variable" && n.title == "Get Variable"
      && n.inputs == [] && |n.outputs| == 1
      && n.outputs[0].name == "Value" && n.outputs[0].portType == Variable && n.outputs[0].direction == Output
      && n.properties == map["variable" := StrValue("VAR")]
    ensures var n := NewFileExists(id, x, y, portId);
      && n.nodeType == "file_exists" && n.title == "File Exists"
      && |n.inputs| == 1
      && n.inputs[0].name == "Path" && n.inputs[0].portType == Path && n.inputs[0].direction == Input
      && |n.outputs| == 1
      && n.outputs[0].name == "Result" && n.outputs[0].portType == String && n.outputs[0].direction == Output
      && n.properties == map["path" := StrValue("")]
  {
  }

  // ---- Reading a connected input ----

  /**
   * The property `key` of the source node of the first edge at `ep`, or `own`
   * when nothing is connected there or that source has no such property.
   */
  function SourceProperty(g: Graph, ep: Endpoint, key: string, own: Prop): (r: Prop)
    ensures ConnectedEdges(g, ep) == [] ==> r == own
    ensures r == own || exists m :: m in g.nodes && key in m.properties && m.properties[key] == r
  {
    var es := ConnectedEdges(g, ep);
    if |es| == 0 then own
    else
      match FindNode(g, es[0].source.node)
      case None => own
      case Some(m) => Get(m.properties, key, own)
  }

  /** A connected source with the property wins; one without it keeps the node's own value. */
  lemma SourcePropertyCases(g: Graph, ep: Endpoint, key: string, own: Prop, e: Edge, m: Node)
    requires |ConnectedEdges(g, ep)| > 0 && ConnectedEdges(g, ep)[0] == e
    requires FindNode(g, e.source.node) == Some(m)
    ensures key in m.properties ==> SourceProperty(g, ep, key, own) == m.properties[key]
    ensures key !in m.properties ==> SourceProperty(g, ep, key, own) == own
  {
  }

  // ---- Quoting ----

  function Quoted(s: string): (q: string)
    ensures |q| == |s| + 2 && q[0] == '"' && q[|q| - 1] == '"'
  {
    "\"" + s + "\""
  }

  function Unquote(q: string): Option<string> {
    if |q| >= 2 && q[0] == '"' && q[|q| - 1] == '"' then Some(q[1..|q| - 1]) else None
  }

  lemma UnquoteQuoted(s: string)
    ensures Unquote(Quoted(s)) == Some(s)
  {
    assert Quoted(s)[1..|s| + 1] == s;
  }

  // ---- Set variable ----

  function VariableName(n: Node): Prop {
    Get(n.properties, "variable", StrValue("VAR"))
  }

  /** The value a set-variable node assigns: its Value input's source's "value", else its own "value". */
  function AssignedValue(g: Graph, n: Node): Prop
    requires |n.inputs| >= 2
  {
    SourceProperty(g, Endpoint(n.id, n.inputs[1].id), "value", Get(n.properties, "value", StrValue("")))
  }

  /** The assignment statement `NAME="VALUE"`. */
  function Assignment(name: Prop, value: Prop): string {
    Text(name) + "=" + Quoted(Text(value))
  }

  /** The name and the value text of an assignment: up to the first `=`, and the quoted rest. */
  function ParseAssignment(line: string): Option<(string, string)> {
    var k := IndexOf(line, '=');
    if k == |line| then None
    else
      match Unquote(line[k + 1..])
      case None => None
      case Some(v) => Some((line[..k], v))
  }

  /** An assignment to a name without `=` reads back as that name and value. */
  lemma AssignmentRoundTrip(name: Prop, value: Prop)
    requires forall j :: 0 <= j < |Text(name)| ==> Text(name)[j] != '='
    ensures ParseAssignment(Assignment(name, value)) == Some((Text(name), Text(value)))
  {
    var w := Text(name);
    var rest := "=" + Quoted(Text(value));
    assert Assignment(name, value) == w + rest;
    IndexOfAfter(w, rest, '=');
    var line := w + rest;
    assert line[..|w|] == w && line[|w| + 1..] == Quoted(Text(value));
    UnquoteQuoted(Text(value));
  }

  /**
   * `SetVariableNode.emit_bash`: records the assigned value under the
   * variable's name in the context and returns the assignment line.
   */
  method EmitSetVariable(g: Graph, n: Node, context: BashContext) returns (line: string)
    requires |n.inputs| >= 2
    modifies context
    ensures context.State() == old(context.State()).(variables := old(context.variables)[VariableName(n) := AssignedValue(g, n)])
    ensures line == Assignment(VariableName(n), AssignedValue(g, n))
  {
    var name := Get(n.properties, "variable", StrValue("VAR"));
    var value := Get(n.properties, "value", StrValue(""));
    var es := ConnectedEdges(g, Endpoint(n.id, n.inputs[1].id));
    if |es| > 0 {
      var source := FindNode(g, es[0].source.node);
      if source.Some? {
        value := Get(source.value.properties, "value", value);
      }
    }
    context.variables := context.variables[name := value];
    line := Text(name) + "=" + Quoted(Text(value));
  }

  /** Setting a variable defines exactly that name and leaves every other variable as it was. */
  lemma SetVariableFrame(vars: map<Prop, Prop>, name: Prop, value: Prop)
    ensures name in vars[name := value] && vars[name := value][name] == value
    ensures forall k :: k != name ==> (k in vars <==> k in vars[name := value])
    ensures forall k :: k != name && k in vars ==> vars[name := value][k] == vars[k]
  {
  }

  /** A fresh set-variable node with an unconnected Value input assigns `VAR=""`. */
  lemma DefaultAssignment(g: Graph, id: NodeId, x: Coord, y: Coord, portId: nat -> PortId)
    requires ConnectedEdges(g, Endpoint(id, portId(1))) == []
    ensures Assignment(VariableName(NewSetVariable(id, x, y, portId)), AssignedValue(g, NewSetVariable(id, x, y, portId))) ==
      "VAR=" + Quoted("")
  {
  }

  // ---- Get variable and file test ----

  /** `GetVariableNode.emit_bash`: a reference to the variable, with no effect on the context. */
  function EmitGetVariable(n: Node): (r: string)
    ensures |r| >= 1 && r[0] == '$' && r[1..] == Text(VariableName(n))
  {
    "$" + Text(VariableName(n))
  }

  /** A get node naming the variable a set node assigned refers to the entry the assignment made. */
  lemma GetRefersToSet(g: Graph, setter: Node, getter: Node, vars: map<Prop, Prop>)
    requires |setter.inputs| >= 2
    requires VariableName(getter) == VariableName(setter)
    ensures var vars' := vars[VariableName(setter) := AssignedValue(g, setter)];
      exists name :: name in vars' && vars'[name] == AssignedValue(g, setter) && EmitGetVariable(getter)[1..] == Text(name)
  {
    var name := VariableName(setter);
    assert EmitGetVariable(getter)[1..] == Text(name);
  }

  /** The path a file test checks: its Path input's source's "value", else its own "path". */
  function PathOperand(g: Graph, n: Node): Prop
    requires |n.inputs| >= 1
  {
    SourceProperty(g, Endpoint(n.id, n.inputs[0].id), "value", Get(n.properties, "path", StrValue("")))
  }

  /** `FileExistsNode.emit_bash`: the test `-f "PATH"`, with no effect on the context. */
  function EmitFileExists(g: Graph, n: Node): (r: string)
    requires |n.inputs| >= 1
    ensures |r| >= 5 && r[..3] == "-f " && Unquote(r[3..]) == Some(Text(PathOperand(g, n)))
  {
    var r := "-f " + Quoted(Text(PathOperand(g, n)));
    assert r[3..] == Quoted(Text(PathOperand(g, n)));
    UnquoteQuoted(Text(PathOperand(g, n)));
    r
  }

  /**
   * A set-variable node whose Value input is fed by an Addition of the
   * constants 5 and 3 assigns its own "value" property, not the sum's
   * expression: an operator node has no "value" property, and the setter
   * reads the source's properties, never its value expression.
   */
  lemma SetFedByAddition()
    ensures
      var five := OperationNodes.NewIntConstant("c5", 0.0, 0.0, (k: nat) => "c5.out").(properties := map["value" := IntValue(5)]);
      var three := OperationNodes.NewIntConstant("c3", 0.0, 0.0, (k: nat) => "c3.out").(properties := map["value" := IntValue(3)]);
      var add := OperationNodes.NewBinary(OperationNodes.Add, "add", 0.0, 0.0,
        (k: nat) => if k == 0 then "add.a" else if k == 1 then "add.b" else "add.r");
      var setter := NewSetVariable("set", 0.0, 0.0,
        (k: nat) => if k == 0 then "set.exec" else if k == 1 then "set.value" else "set.out").(properties := map["variable" := StrValue("X"), "value" := StrValue("")]);
      var g := Graph([five, three, add, setter], [
        Edge("e1", Endpoint("c5", "c5.out"), Endpoint("add", "add.a")),
        Edge("e2", Endpoint("c3", "c3.out"), Endpoint("add", "add.b")),
        Edge("e3", Endpoint("add", "add.r"), Endpoint("set", "set.value"))]);
      && AssignedValue(g, setter) == StrValue("")
      && Assignment(VariableName(setter), AssignedValue(g, setter)) == "X=" + Quoted("")
      && Assignment(VariableName(setter), AssignedValue(g, setter)) != "X=" + Quoted("$((5 + 3))")
  {
    var add := OperationNodes.NewBinary(OperationNodes.Add, "add", 0.0, 0.0,
      (k: nat) => if k == 0 then "add.a" else if k == 1 then "add.b" else "add.r");
    var setter := NewSetVariable("set", 0.0, 0.0,
      (k: nat) => if k == 0 then "set.exec" else if k == 1 then "set.value" else "set.out").(properties := map["variable" := StrValue("X"), "value" := StrValue("")]);
    var e3 := Edge("e3", Endpoint("add", "add.r"), Endpoint("set", "set.value"));
    assert setter.inputs[1].id == "set.value";
    assert add.properties == map[];
    var five := OperationNodes.NewIntConstant("c5", 0.0, 0.0, (k: nat) => "c5.out").(properties := map["value" := IntValue(5)]);
    var three := OperationNodes.NewIntConstant("c3", 0.0, 0.0, (k: nat) => "c3.out").(properties := map["value" := IntValue(3)]);
    var e1 := Edge("e1", Endpoint("c5", "c5.out"), Endpoint("add", "add.a"));
    var e2 := Edge("e2", Endpoint("c3", "c3.out"), Endpoint("add", "add.b"));
    var g := Graph([five, three, add, setter], [e1, e2, e3]);
    var ep := Endpoint("set", "set.value");
    assert EdgesAt([e3], ep) == [e3];
    assert EdgesAt([e2, e3], ep) == [e3];
    assert ConnectedEdges(g, ep) == [e3];
    assert g.nodes[1..][1..] == [add, setter];
    assert FindIn([add, setter], "add") == Some(add);
    assert FindNode(g, "add") == Some(add);
    var line := Assignment(VariableName(setter), AssignedValue(g, setter));
    assert |line| == 4;
  }
}
