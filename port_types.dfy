/** Port types, port directions and the style table of core/port_types.py. */
module PortTypes {
  import opened Wrappers

  /** The six kinds of port. `Exec` ports carry control flow, the others carry values. */
  datatype PortType = Exec | String | Int | Bool | Path | Variable

  /** The enum value that the serializer writes for a port type. */
  function TypeValue(t: PortType): string {
    match t
    case Exec => "exec"
    case String => "string"
    case Int => "int"
    case Bool => "bool"
    case Path => "path"
    case Variable => "variable"
  }

  /** Decoding an enum value back into a port type (Python's `PortType(value)`). */
  function TypeFromValue(v: string): (r: Option<PortType>)
    ensures r.Some? ==> TypeValue(r.value) == v
    ensures r.None? ==> forall t: PortType :: TypeValue(t) != v
  {
    if v == "exec" then Some(Exec)
    else if v == "string" then Some(String)
    else if v == "int" then Some(Int)
    else if v == "bool" then Some(Bool)
    else if v == "path" then Some(Path)
    else if v == "variable" then Some(Variable)
    else None
  }

  /** The enum values are pairwise distinct, so decoding is well defined. */
  lemma TypeValueInjective(s: PortType, t: PortType)
    ensures TypeValue(s) == TypeValue(t) ==> s == t
  {
  }

  lemma TypeValueRoundTrip(t: PortType)
    ensures TypeFromValue(TypeValue(t)) == Some(t)
  {
  }

  datatype Direction = Input | Output

  function DirectionValue(d: Direction): string {
    match d
    case Input => "input"
    case Output => "output"
  }

  /** Exactly two directions, with distinct values. */
  lemma DirectionValues(d: Direction)
    ensures d == Input || d == Output
    ensures DirectionValue(Input) != DirectionValue(Output)
  {
  }

  datatype PortStyle = PortStyle(color: string, size: int)

  const ExecStyle := PortStyle("#FFFFFF", 12)
  const StringStyle := PortStyle("#FF6B9D", 10)
  const IntStyle := PortStyle("#4ECDC4", 10)
  const BoolStyle := PortStyle("#95E1D3", 10)
  const PathStyle := PortStyle("#F38181", 10)
  const VariableStyle := PortStyle("#FFA07A", 10)

  /** The PORT_STYLES table. */
  const PortStyles: map<PortType, PortStyle> := map[
    Exec := ExecStyle,
    String := StringStyle,
    Int := IntStyle,
    Bool := BoolStyle,
    Path := PathStyle,
    Variable := VariableStyle
  ]

  /** Every port type has a style; exec ports are drawn at size 12, every other type at size 10. */
  lemma PortStylesComplete(t: PortType)
    ensures t in PortStyles
    ensures PortStyles[t].size == if t == Exec then 12 else 10
  {
  }
}
