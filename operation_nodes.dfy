/**
 * The value-expression nodes of nodes/operation_nodes.py: integer constants,
 * ten binary operators and logical not. Their `emit_bash_value` builds a
 * shell arithmetic expansion, resolving each operand lazily from the source
 * node of the operand port's first edge, or "0" when the port is unconnected.
 *
 * The nodes are modelled as an expression tree (`ValueExpr`) so that the
 * recursion of emission is structural; `Lower` reads that tree off the graph.
 */
module OperationNodes {
  import opened Wrappers
  import opened Props
  import opened PortTypes
  import opened GraphModel

  datatype BinOp = Add | Sub | Mul | Div | Mod | Lt | Gt | Eq | And | Or

  /** The shell operator each binary node writes. */
  function Symbol(op: BinOp): string {
    match op
    case Add => "+"
    case Sub => "-"
    case Mul => "*"
    case Div => "/"
    case Mod => "%"
    case Lt => "<"
    case Gt => ">"
    case Eq => "=="
    case And => "&&"
    case Or => "||"
  }

  /** The node type (and registry key) of each binary node. */
  function Kind(op: BinOp): string {
    match op
    case Add => "addition"
    case Sub => "subtraction"
    case Mul => "multiplication"
    case Div => "division"
    case Mod => "modulo"
    case Lt => "less_than"
    case Gt => "greater_than"
    case Eq => "equals"
    case And => "logical_and"
    case Or => "logical_or"
  }

  /** The node title of each binary node. */
  function Title(op: BinOp): string {
    match op
    case Add => "Addition"
    case Sub => "Subtraction"
    case Mul => "Multiplication"
    case Div => "Division"
    case Mod => "Modulo"
    case Lt => "Less Than"
    case Gt => "Greater Than"
    case Eq => "Equals"
    case And => "AND"
    case Or => "OR"
  }

  function OpOfKind(kind: string): (r: Option<BinOp>)
    ensures r.Some? ==> Kind(r.value) == kind
    ensures r.None? ==> forall op: BinOp :: Kind(op) != kind
  {
    if kind == "addition" then Some(Add)
    else if kind == "subtraction" then Some(Sub)
    else if kind == "multiplication" then Some(Mul)
    else if kind == "division" then Some(Div)
    else if kind == "modulo" then Some(Mod)
    else if kind == "less_than" then Some(Lt)
    else if kind == "greater_than" then Some(Gt)
    else if kind == "equals" then Some(Eq)
    else if kind == "logical_and" then Some(And)
    else if kind == "logical_or" then Some(Or)
    else None
  }

  const IntConstKind := "int_const"
  const NotKind := "logical_not"

  /** The fallback text for an unconnected operand. */
  const DefaultOperand := "0"

  // ---- Constructors: the fixed port layouts ----

  /** `IntConstant()`: one INT output "Value" and property value = 0. Port ids come from the unmodelled base class. */
  function NewIntConstant(id: NodeId, x: Coord, y: Coord, portId: nat -> PortId): Node {
    Node(id, IntConstKind, "Int", x, y, map["value" := IntValue(0)], [], [Port(portId(0), "Value", Int, Output)])
  }

  /** A binary operator node: INT inputs "A" and "B", INT output "Result". */
  function NewBinary(op: BinOp, id: NodeId, x: Coord, y: Coord, portId: nat -> PortId): Node {
    Node(id, Kind(op), Title(op), x, y, map[],
      [Port(portId(0), "A", Int, Input), Port(portId(1), "B", Int, Input)],
      [Port(portId(2), "Result", Int, Output)])
  }

  /** `LogicalNot()`: a single INT input "A" and INT output "Result". */
  function NewLogicalNot(id: NodeId, x: Coord, y: Coord, portId: nat -> PortId): Node {
    Node(id, NotKind, "NOT", x, y, map[], [Port(portId(0), "A", Int, Input)], [Port(portId(1), "Result", Int, Output)])
  }

  /**
   * The constructors' layouts: node type, title, port names, types and
   * directions in order, and the constant's default value.
   */
  lemma Layouts(op: BinOp, id: NodeId, x: Coord, y: Coord, portId: nat -> PortId)
    ensures var n := NewBinary(op, id, x, y, portId);
      && n.nodeType == Kind(op) && n.title == Title(op) && n.properties == map[]
      && |n.inputs| == 2 && n.inputs[0].name == "A" && n.inputs[1].name == "B"
      && |n.outputs| == 1 && n.outputs[0].name == "Result"
      && (forall p :: p in Ports(n) ==> p.portType == Int)
      && (forall p :: p in n.inputs ==> p.direction == Input)
      && (forall p :: p in n.outputs ==> p.direction == Output)
    ensures var n := NewLogicalNot(id, x, y, portId);
      && n.nodeType == NotKind && n.nodeType == "logical_not" && n.title == "NOT" && n.properties == map[]
      && |n.inputs| == 1 && n.inputs[0].name == "A" && n.inputs[0].portType == Int && n.inputs[0].direction == Input
      && |n.outputs| == 1 && n.outputs[0].name == "Result" && n.outputs[0].portType == Int && n.outputs[0].direction == Output
    ensures var n := NewIntConstant(id, x, y, portId);
      && n.nodeType == IntConstKind && n.nodeType == "int_const" && n.title == "Int"
      && n.inputs == [] && |n.outputs| == 1
      && n.outputs[0].name == "Value" && n.outputs[0].portType == Int && n.outputs[0].direction == Output
      && n.properties == map["value" := IntValue(0)]
  {
  }

  // ---- Value expressions ----

  datatype ValueExpr =
    | IntConst(properties: Properties)
    | Binary(op: BinOp, a: Operand, b: Operand)
    | Not(arg: Operand)

  /** An operand port: unconnected, or fed by the source node of its first edge. */
  datatype Operand = Unconnected | Connected(source: ValueExpr)

  /** `_resolve(port, context)`: the source's value expression, else the default "0". */
  function Resolve(o: Operand): (r: string)
    ensures o.Unconnected? ==> r == DefaultOperand
    ensures o.Connected? ==> r == EmitValue(o.source)
  {
    match o
    case Unconnected => DefaultOperand
    case Connected(e) => EmitValue(e)
  }

  /** `emit_bash_value(context)` of every value-expression node. */
  function EmitValue(e: ValueExpr): (r: string)
    ensures !e.IntConst? ==> |r| >= 5 && r[..3] == "$((" && r[|r| - 2..] == "))"
  {
    match e
    case IntConst(props) => Text(Get(props, "value", IntValue(0)))
    case Binary(op, a, b) => "$((" + Resolve(a) + " " + Symbol(op) + " " + Resolve(b) + "))"
    case Not(a) => "$((!" + Resolve(a) + "))"
  }

  /** A binary node with both inputs unconnected compares or combines two zeros. */
  lemma UnconnectedBinary(op: BinOp)
    ensures EmitValue(Binary(op, Unconnected, Unconnected)) == "$((0 " + Symbol(op) + " 0))"
  {
  }

  /** Only an unconnected operand falls back to "0"; a connected one is emitted in place. */
  lemma OperandFallback(op: BinOp, e: ValueExpr)
    ensures EmitValue(Binary(op, Connected(e), Unconnected)) == "$((" + EmitValue(e) + " " + Symbol(op) + " 0))"
    ensures EmitValue(Binary(op, Unconnected, Connected(e))) == "$((0 " + Symbol(op) + " " + EmitValue(e) + "))"
  {
  }

  // ---- Reading the tree off the graph ----

  /**
   * The expression tree of a value node in the graph, following each operand
   * port's first edge back to its source node. None where the source has no
   * value expression, a port the layout needs is missing, or `fuel` (a bound
   * on the nesting depth) runs out. A tree that is found records the node's
   * operator and, for each operand port, what `LowerInput` reads there.
   */
  function Lower(g: Graph, n: Node, fuel: nat): (r: Option<ValueExpr>)
    ensures n.nodeType == IntConstKind ==> r == Some(IntConst(n.properties))
    ensures r.Some? && r.value.IntConst? ==> n.nodeType == IntConstKind
    ensures r.Some? && r.value.Not? ==>
      && n.nodeType == NotKind && |n.inputs| >= 1
      && LowerInput(g, Endpoint(n.id, n.inputs[0].id), fuel) == Some(r.value.arg)
    ensures r.Some? && r.value.Binary? ==>
      && OpOfKind(n.nodeType) == Some(r.value.op) && |n.inputs| >= 2
      && LowerInput(g, Endpoint(n.id, n.inputs[0].id), fuel) == Some(r.value.a)
      && LowerInput(g, Endpoint(n.id, n.inputs[1].id), fuel) == Some(r.value.b)
    decreases fuel, 1
  {
    if n.nodeType == IntConstKind then Some(IntConst(n.properties))
    else if n.nodeType == NotKind then
      if |n.inputs| < 1 then None
      else
        match LowerInput(g, Endpoint(n.id, n.inputs[0].id), fuel)
        case None => None
        case Some(a) => Some(Not(a))
    else
      match OpOfKind(n.nodeType)
      case None => None
      case Some(op) =>
        if |n.inputs| < 2 then None
        else
          match (LowerInput(g, Endpoint(n.id, n.inputs[0].id), fuel), LowerInput(g, Endpoint(n.id, n.inputs[1].id), fuel))
          case (Some(a), Some(b)) => Some(Binary(op, a, b))
          case _ => None
  }

  /**
   * The operand read off an input port: unconnected exactly when the port has
   * no edge, and otherwise the lowered source node of its first edge.
   */
  function LowerInput(g: Graph, ep: Endpoint, fuel: nat): (r: Option<Operand>)
    ensures r == Some(Unconnected) <==> ConnectedEdges(g, ep) == []
    ensures r.Some? && r.value.Connected? ==>
      && fuel > 0 && |ConnectedEdges(g, ep)| > 0
      && FindNode(g, ConnectedEdges(g, ep)[0].source.node).Some?
      && Lower(g, FindNode(g, ConnectedEdges(g, ep)[0].source.node).value, fuel - 1) == Some(r.value.source)
    decreases fuel, 0
  {
    var es := ConnectedEdges(g, ep);
    if |es| == 0 then Some(Unconnected)
    else if fuel == 0 then None
    else
      match FindNode(g, es[0].source.node)
      case None => None
      case Some(m) =>
        match Lower(g, m, fuel - 1)
        case None => None
        case Some(e) => Some(Connected(e))
  }

  /** More fuel never changes a lowering that already succeeded: the bound only cuts off, it never alters the tree. */
  lemma {:induction false} LowerMonotone(g: Graph, n: Node, fuel: nat, more: nat)
    requires fuel <= more && Lower(g, n, fuel).Some?
    ensures Lower(g, n, more) == Lower(g, n, fuel)
    decreases fuel, 1
  {
    if n.nodeType != IntConstKind {
      if n.nodeType == NotKind {
        LowerInputMonotone(g, Endpoint(n.id, n.inputs[0].id), fuel, more);
      } else {
        LowerInputMonotone(g, Endpoint(n.id, n.inputs[0].id), fuel, more);
        LowerInputMonotone(g, Endpoint(n.id, n.inputs[1].id), fuel, more);
      }
    }
  }

  lemma {:induction false} LowerInputMonotone(g: Graph, ep: Endpoint, fuel: nat, more: nat)
    requires fuel <= more && LowerInput(g, ep, fuel).Some?
    ensures LowerInput(g, ep, more) == LowerInput(g, ep, fuel)
    decreases fuel, 0
  {
    var es := ConnectedEdges(g, ep);
    if |es| > 0 {
      var m := FindNode(g, es[0].source.node).value;
      LowerMonotone(g, m, fuel - 1, more - 1);
    }
  }

  /**
   * In the graph: a binary node whose second input has no edge emits its
   * first operand, its operator and the default "0" for the second.
   */
  lemma SecondInputUnconnected(g: Graph, n: Node, fuel: nat, op: BinOp)
    requires OpOfKind(n.nodeType) == Some(op) && |n.inputs| >= 2
    requires ConnectedEdges(g, Endpoint(n.id, n.inputs[1].id)) == []
    requires Lower(g, n, fuel).Some?
    ensures Lower(g, n, fuel).value.Binary? && Lower(g, n, fuel).value.b == Unconnected
    ensures EmitValue(Lower(g, n, fuel).value) == "$((" + Resolve(Lower(g, n, fuel).value.a) + " " + Symbol(op) + " 0))"
  {
  }

  /** An addition fed by constants 5 and 3 emits `$((5 + 3))`. */
  lemma AdditionOfConstants()
    ensures
      var five := NewIntConstant("c5", 0.0, 0.0, (k: nat) => "c5.out").(properties := map["value" := IntValue(5)]);
      var three := NewIntConstant("c3", 0.0, 0.0, (k: nat) => "c3.out").(properties := map["value" := IntValue(3)]);
      var add := NewBinary(Add, "add", 0.0, 0.0, (k: nat) => if k == 0 then "add.a" else if k == 1 then "add.b" else "add.r");
      var g := Graph([five, three, add], [
        Edge("e1", Endpoint("c5", "c5.out"), Endpoint("add", "add.a")),
        Edge("e2", Endpoint("c3", "c3.out"), Endpoint("add", "add.b"))]);
      && Lower(g, add, 1) == Some(Binary(Add, Connected(IntConst(five.properties)), Connected(IntConst(three.properties))))
      && EmitValue(Lower(g, add, 1).value) == "$((5 + 3))"
  {
    var five := NewIntConstant("c5", 0.0, 0.0, (k: nat) => "c5.out").(properties := map["value" := IntValue(5)]);
    var three := NewIntConstant("c3", 0.0, 0.0, (k: nat) => "c3.out").(properties := map["value" := IntValue(3)]);
    var add := NewBinary(Add, "add", 0.0, 0.0, (k: nat) => if k == 0 then "add.a" else if k == 1 then "add.b" else "add.r");
    var e1 := Edge("e1", Endpoint("c5", "c5.out"), Endpoint("add", "add.a"));
    var e2 := Edge("e2", Endpoint("c3", "c3.out"), Endpoint("add", "add.b"));
    var g := Graph([five, three, add], [e1, e2]);
    assert add.inputs[0].id == "add.a" && add.inputs[1].id == "add.b";
    assert EdgesAt([e2], Endpoint("add", "add.a")) == [];
    assert ConnectedEdges(g, Endpoint("add", "add.a")) == [e1];
    assert EdgesAt([e2], Endpoint("add", "add.b")) == [e2];
    assert ConnectedEdges(g, Endpoint("add", "add.b")) == [e2];
    assert FindNode(g, "c5") == Some(five);
    assert g.nodes[1..] == [three, add];
    assert FindIn([three, add], "c3") == Some(three);
    assert FindNode(g, "c3") == Some(three);
    assert NatText(5) == "5" && NatText(3) == "3";
  }
}
