/**
 * The node registry of nodes/registry.py: a global map from registry key to
 * node class, filled by a decorator at the point each class is defined.
 * Classes are values here; `NodeClass` names the operation node classes that
 * nodes/operation_nodes.py registers.
 */
module Registry {
  import opened Wrappers
  import opened OperationNodes

  datatype NodeClass = MathNodeBase | IntConstantClass | BinaryClass(op: BinOp) | LogicalNotClass

  /** The node type a class's constructor gives its nodes; the shared base class has no constructor of its own. */
  function NodeTypeOf(c: NodeClass): Option<string> {
    match c
    case MathNodeBase => None
    case IntConstantClass => Some(IntConstKind)
    case BinaryClass(op) => Some(Kind(op))
    case LogicalNotClass => Some(NotKind)
  }

  /** The registrations nodes/operation_nodes.py makes, in definition order. */
  const OperationRegistrations: seq<(string, NodeClass)> := [
    ("math_node_base", MathNodeBase),
    ("int_constant", IntConstantClass),
    ("addition", BinaryClass(Add)),
    ("subtraction", BinaryClass(Sub)),
    ("multiplication", BinaryClass(Mul)),
    ("division", BinaryClass(Div)),
    ("modulo", BinaryClass(Mod)),
    ("less_than", BinaryClass(Lt)),
    ("greater_than", BinaryClass(Gt)),
    ("equals", BinaryClass(Eq)),
    ("logical_and", BinaryClass(And)),
    ("logical_or", BinaryClass(Or)),
    ("logical_not", LogicalNotClass)]

  /** The map a sequence of registrations leaves behind, starting from `m`: later ones overwrite earlier ones. */
  function Registered(m: map<string, NodeClass>, regs: seq<(string, NodeClass)>): map<string, NodeClass> {
    if regs == [] then m
    else
      var last := regs[|regs| - 1];
      Registered(m, regs[..|regs| - 1])[last.0 := last.1]
  }

  /** A key is registered exactly when it was registered before or is among the new registrations. */
  lemma {:induction false} RegisteredKeys(m: map<string, NodeClass>, regs: seq<(string, NodeClass)>)
    ensures forall k :: k in Registered(m, regs) <==> k in m || exists j :: 0 <= j < |regs| && regs[j].0 == k
  {
    if regs != [] {
      var init := regs[..|regs| - 1];
      RegisteredKeys(m, init);
      forall k ensures k in Registered(m, regs) <==> k in m || exists j :: 0 <= j < |regs| && regs[j].0 == k {
        if exists j :: 0 <= j < |init| && init[j].0 == k {
          var j :| 0 <= j < |init| && init[j].0 == k;
          assert regs[j].0 == k;
        }
        if exists j :: 0 <= j < |regs| && regs[j].0 == k {
          var j :| 0 <= j < |regs| && regs[j].0 == k;
          if j < |init| {
            assert init[j].0 == k;
          }
        }
      }
    }
  }

  /** The entry for a key is the class of its last registration. */
  lemma {:induction false} RegisteredLast(m: map<string, NodeClass>, regs: seq<(string, NodeClass)>, j: nat)
    requires j < |regs|
    requires forall i :: j < i < |regs| ==> regs[i].0 != regs[j].0
    ensures regs[j].0 in Registered(m, regs) && Registered(m, regs)[regs[j].0] == regs[j].1
  {
    if j < |regs| - 1 {
      var init := regs[..|regs| - 1];
      RegisteredLast(m, init, j);
    }
  }

  class NodeRegistry {
    var entries: map<string, NodeClass>

    /** `NODE_REGISTRY = {}`. */
    constructor ()
      ensures entries == map[]
    {
      entries := map[];
    }

    /** `register_node(key)(cls)`: records the class under the key, overwriting, and hands the class back. */
    method Register(key: string, cls: NodeClass) returns (r: NodeClass)
      modifies this
      ensures entries == old(entries)[key := cls]
      ensures r == cls
    {
      entries := entries[key := cls];
      r := cls;
    }

    /** Defining the operation node classes, in order, each through its decorator. */
    method RegisterOperationNodes()
      modifies this
      ensures entries == Registered(old(entries), OperationRegistrations)
    {
      var i := 0;
      while i < |OperationRegistrations|
        invariant 0 <= i <= |OperationRegistrations|
        invariant entries == Registered(old(entries), OperationRegistrations[..i])
      {
        var reg := OperationRegistrations[i];
        assert OperationRegistrations[..i + 1][..i] == OperationRegistrations[..i];
        var _ := Register(reg.0, reg.1);
        i := i + 1;
      }
      assert OperationRegistrations[..i] == OperationRegistrations;
    }
  }

  /** Registering one key changes no other key's entry. */
  lemma RegisterFrame(m: map<string, NodeClass>, key: string, cls: NodeClass)
    ensures forall k :: k != key ==> (k in m[key := cls] <==> k in m)
    ensures forall k :: k != key && k in m ==> m[key := cls][k] == m[k]
    ensures m[key := cls][key] == cls
  {
  }

  /** A key no registration names keeps its absence. */
  lemma NotRegistered(m: map<string, NodeClass>, regs: seq<(string, NodeClass)>, k: string)
    requires k !in m
    requires forall j :: 0 <= j < |regs| ==> regs[j].0 != k
    ensures k !in Registered(m, regs)
  {
    RegisteredKeys(m, regs);
  }

  /** Every binary node class is registered under its own node type. */
  lemma BinaryRegisteredByKind(op: BinOp)
    ensures var reg := Registered(map[], OperationRegistrations);
      Kind(op) in reg && reg[Kind(op)] == BinaryClass(op) && NodeTypeOf(reg[Kind(op)]) == Some(Kind(op))
  {
    var regs := OperationRegistrations;
    var j := match op
      case Add => 2 case Sub => 3 case Mul => 4 case Div => 5 case Mod => 6
      case Lt => 7 case Gt => 8 case Eq => 9 case And => 10 case Or => 11;
    assert regs[j] == (Kind(op), BinaryClass(op));
    RegisteredLast(map[], regs, j);
  }

  /**
   * "logical_not" is registered under its own node type, while the integer
   * constant is registered as "int_constant" although its nodes have type
   * "int_const".
   */
  lemma ConstantAndNotKeys()
    ensures var reg := Registered(map[], OperationRegistrations);
      && "logical_not" in reg && reg["logical_not"] == LogicalNotClass && NodeTypeOf(LogicalNotClass) == Some("logical_not")
      && "int_constant" in reg && reg["int_constant"] == IntConstantClass && NodeTypeOf(IntConstantClass) == Some("int_const")
  {
    var regs := OperationRegistrations;
    RegisteredLast(map[], regs, 12);
    RegisteredLast(map[], regs, 1);
  }

  /** The constant's node type is not a registry key, and the variable nodes, which use no decorator, are not registered. */
  lemma UnregisteredKinds()
    ensures var reg := Registered(map[], OperationRegistrations);
      IntConstKind !in reg && "set_variable" !in reg && "get_variable" !in reg && "file_exists" !in reg
  {
    var regs := OperationRegistrations;
    NotRegistered(map[], regs, IntConstKind);
    NotRegistered(map[], regs, "set_variable");
    NotRegistered(map[], regs, "get_variable");
    NotRegistered(map[], regs, "file_exists");
  }
}
