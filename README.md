# Vish core, modelled in Dafny

Vish is a visual editor that compiles a node graph into a Bash script. This project models its core:

- **Port types** (`PortTypes`): the six port types, the two directions and the style table. The serializer writes each type as an enum value; decoding that value gives the same type back.
- **Connection validation** (`Validator`): the core validator checks a proposed connection in order. It rejects the same item twice, a connection within one node, two inputs or two outputs, and mismatched port types. It also rejects an edge that would close a cycle, found by a depth-first reachability search, and a target port that already has an edge. The search is proved sound and complete, and an accepted edge keeps an acyclic graph acyclic.
- **Scene** (`Scene.GraphScene`): the editor scene runs its own copy of the same checks over its edge items, minus the cycle test. It is proved to agree with the core validator whenever no cycle is involved. A concrete two-node graph shows that it accepts a cycle the core validator rejects.
- **Emission context** (`Context.BashContext`): two line buffers, an indent level that `indent` and `dedent` never take below zero (a call into unmodelled emission code, `ApplyEffect`, may set any level), and the set of emitted node ids. The script is the function buffer, one blank line, then the main buffer. It splits back into exactly those lines.
- **Emitter driver** (`BashEmitter.Emit`): the script is a fixed header followed by the context's script. Function nodes are hoisted in graph order, at most once each, before the exec chain is entered from the start node's first output.
- **Arithmetic and logic nodes** (`OperationNodes`): the integer constant, ten binary operators and logical NOT.
  - A value expression is lowered from the graph by following each input's first edge. An unconnected input falls back to `0`.
  - The emitted `$(( … ))` text is given a parser (`ArithSyntax`). The text parses back to the arithmetic it denotes. So two integer-valued expressions with the same text have the same arithmetic: they differ at most in constant properties other than `value`, or in an unconnected input standing where a constant 0 stands in the other.
- **Variable nodes** (`VariableNodes`): set variable, get variable and file exists.
  - The assignment line parses back into its name and value.
  - The context's variable map changes at exactly one key.
  - A getter with the same name refers to what the setter stored.
- **Node registry** (`Registry.NodeRegistry`): the decorator registrations, in source order, and which keys they leave.
- **Clipboard** (`Clipboard.GraphClipboard`).
- **Serializer** (`Serializer`): saving a graph to a document record, and loading a document back.
  - Loading goes through a node factory and rebinds the saved port ids onto the factory's ports. Edges are reconnected only where both port ids resolve.
  - Loading fails exactly when some record's type is unknown to the factory, or repeats an id already loaded.
  - When the factory recreates each node's port layout, saving then loading gives back the nodes and the edges' endpoints.

`core/graph.py` is not part of this model. Its graph is modelled as a value: nodes and edges are sequences in insertion order, and an edge names its endpoints as (node id, port id) pairs. Adding a node with an id already present fails. Edge ids come from a `mint` parameter. The node factory, the function nodes' `emit_bash` and `BaseNode.emit_exec_chain` are not part of this model either. They are parameters: a factory from type names to nodes, and two functions on a snapshot of the context.

Two observations follow from the registrations as written:
- The integer constant is registered under `int_constant`, but its nodes carry the type `int_const`.
- The variable nodes are not registered at all.

A factory that looked node types up in the registry would therefore refuse to load a saved integer constant or variable node (`Registry.UnregisteredKinds`, `Serializer.UnknownTypeFailsLoad`). The factory itself is not visible, so this is not listed as a finding.

A set-variable node takes a connected input's value from the source node's `value` property, never from its value expression. An operator node has no properties, so a setter fed by the Addition of 5 and 3 assigns its own value, `X=""`, and not `X="$((5 + 3))"` (`VariableNodes.SetFedByAddition`). The model follows the code here.

## Model

| member | source | states |
|---|---|---|
| PortTypes.TypeFromValue | core/port_types.py:5-11 | decoding an enum value yields a type whose value it is, and fails only on a string that is no type's value |
| PortTypes.TypeValueInjective | core/port_types.py:5-11 | distinct port types have distinct enum values |
| PortTypes.TypeValueRoundTrip | core/port_types.py:5-11 | decoding a type's enum value gives that type back |
| PortTypes.DirectionValues | core/port_types.py:13-15 | there are exactly two directions, with distinct values |
| PortTypes.PortStylesComplete | core/port_types.py:22-36 | every port type has a style; exec ports are size 12, all others size 10 |
| Props.NatText | nodes/operation_nodes.py:21 | the decimal text of a natural is non-empty, all digits, with no leading zero unless the number is zero |
| Props.IntText | nodes/operation_nodes.py:21 | the decimal text of an integer is non-empty, starts with '-' exactly when the integer is negative, and is digits after that |
| Props.NatTextValue | nodes/operation_nodes.py:21 | the digits of a natural's text read back as that natural |
| Props.IntTextRoundTrip | nodes/operation_nodes.py:21 | an integer's text reads back as that integer |
| Lines.SplitLines | core/bash_context.py:23 | splitting text at newlines gives at least one line and no line holds a newline |
| Lines.SplitLineThenRest | core/bash_context.py:23 | splitting a newline-free line followed by a newline and more text gives that line, then the split of the rest |
| Lines.SplitJoin | core/bash_context.py:23 | newline-free lines joined with newlines split back into the same lines |
| Lines.JoinSplit | core/bash_context.py:23 | any text split at newlines joins back to itself |
| Lines.Indentation | core/bash_context.py:13 | the indent is four spaces per level and empty for a level of zero or less |
| GraphModel.FindIn | nodes/operation_nodes.py:10 | a node found by id is in the sequence with that id; not found means no node has that id |
| GraphModel.ConnectedEdges | nodes/operation_nodes.py:9-10 | the edges of a port are exactly the graph's edges with that port as source or target |
| GraphModel.StartNode | core/bash_emitter.py:24 | a start node found is a graph node of type "start"; none found means no node has that type |
| GraphModel.AddNode | core/serializer.py:70 | adding a node fails exactly when its id is present, and otherwise appends it, edges unchanged |
| GraphModel.ReachRefl | core/validator.py:43-44 | every node reaches itself |
| GraphModel.ReachStep | core/validator.py:46-49 | a node reaches whatever the target of one of its outgoing edges reaches |
| GraphModel.ReachTrans | core/validator.py:38-52 | reachability is transitive |
| Validator.Dfs | core/validator.py:38-50 | a hit means the target is reachable; a miss leaves a visited set that contains the node and not the target and is closed under edges |
| Validator.ClosedPath | core/validator.py:38-50 | every node on a path that starts inside an edge-closed set stays inside it |
| Validator.NotReachableFromClosed | core/validator.py:38-52 | nothing outside an edge-closed set is reachable from inside it |
| Validator.CanReach | core/validator.py:35-52 | the search returns true exactly when the target is reachable from the start |
| Validator.IsValidConnection | core/validator.py:5-32 | accepts exactly when the items differ, lie on different nodes, one is an input, the types match, the source is not reachable from the target, and the input item has no edge yet |
| Validator.OrientationByDirection | core/validator.py:18-29 | for consistent items of opposite sides, the chosen source is the output and the destination is the input item checked for fan-in |
| Validator.AcceptedShape | core/validator.py:5-32 | an accepted pair joins two nodes, has matching types, and its input item is no existing edge's target |
| Validator.AcceptsFreshPair | core/validator.py:5-32 | the listed conditions together are enough for acceptance |
| Validator.ArrowAfterAdd | core/validator.py:25-26 | after adding an edge, every arrow is an old one or the new one |
| Validator.PathAfterAdd | core/validator.py:25-26 | a path after adding an edge is an old path or passes through the new edge |
| Validator.AddKeepsAcyclic | core/validator.py:25-26 | adding an edge whose source is not reachable from its target keeps the graph acyclic |
| Validator.AcceptedEdgeKeepsAcyclic | core/validator.py:5-32 | adding an accepted connection to an acyclic graph keeps it acyclic |
| Scene.GraphScene.constructor | ui/graph_scene.py:13-18 | a new scene has no edge items and no drag in progress |
| Scene.GraphScene.IsValidConnection | ui/graph_scene.py:80-100 | accepts exactly when the items differ, lie on different nodes, are of opposite sides, have matching types, and the target has no edge item yet |
| Scene.GraphScene.FinalizeConnection | ui/graph_scene.py:55-70 | a rejected pair leaves the edge items unchanged, an accepted pair appends one item from the non-input to the input, and the drag ends either way |
| Scene.CoreAcceptedIsSceneAccepted | ui/graph_scene.py:80-100 | every connection the core validator accepts, the scene accepts |
| Scene.SceneIsCoreWithoutCycleTest | ui/graph_scene.py:80-100 | when the source is not reachable from the target, the scene and the core validator agree |
| Scene.SceneAcceptsCycle | ui/graph_scene.py:80-100 | with an edge A to B in place, the scene accepts B to A, the core validator rejects it, and adding it makes the graph cyclic |
| Context.ScriptOfEmpty | core/bash_context.py:31-32 | with both buffers empty the script body is empty |
| Context.ScriptOfSplits | core/bash_context.py:31-32 | with newline-free lines, the body splits back into the function buffer, one blank line and the main buffer |
| Context.BashContext.constructor | core/bash_context.py:4-10 | a new context is empty: no variables, level 0, empty buffers, nothing emitted, main buffer current |
| Context.BashContext.AddLine | core/bash_context.py:12-17 | the indented line is appended to the function buffer when it is current, else to the main buffer; nothing else changes |
| Context.BashContext.AddFunctionLine | core/bash_context.py:19-20 | the line is appended unindented to the function buffer; nothing else changes |
| Context.BashContext.Indent | core/bash_context.py:25-26 | the level goes up by one; nothing else changes |
| Context.BashContext.Dedent | core/bash_context.py:28-29 | the level goes down by one but never below zero; nothing else changes |
| Context.BashContext.GetScript | core/bash_context.py:31-32 | empty buffers give the empty script; newline-free buffers split back into function lines, a blank line and main lines |
| Context.BashContext.Build | core/bash_context.py:22-23 | the built text is the same as the script |
| Context.BashContext.ApplyEffect | core/bash_emitter.py:23 | a call into unmodelled emission code replaces the context state by its function of the old state |
| BashEmitter.HeaderLinesText | core/bash_emitter.py:12-17 | the header lines join to the shebang, a blank line, the banner comment and a newline |
| BashEmitter.Emit | core/bash_emitter.py:9-28 | the script is the generated text for the graph and always starts with the header |
| BashEmitter.HoistedAreFunctionNodes | core/bash_emitter.py:18-23 | only nodes of type "function" are hoisted |
| BashEmitter.HoistedOnce | core/bash_emitter.py:18-23 | for a function-node emission that never removes an emitted id: each function node is hoisted at most once, and every function node's id is marked emitted at the end |
| BashEmitter.NoFunctionNodesNoHoisting | core/bash_emitter.py:18-23 | without function nodes nothing is hoisted and the context stays fresh |
| BashEmitter.HeaderOnly | core/bash_emitter.py:9-28 | with no function node and no chain entered, the script is exactly the header |
| BashEmitter.ChainEntryCases | core/bash_emitter.py:24-27 | the chain is entered exactly when a start node exists and its first output has an edge |
| OperationNodes.OpOfKind | nodes/operation_nodes.py:23-151 | a node type names an operator exactly when that operator's node type is that string |
| OperationNodes.Layouts | nodes/operation_nodes.py:13-158 | each new node has its node type and title; binary nodes have INT inputs A, B and INT output Result, NOT has INT input A and INT output Result, the constant has one INT output Value and value 0; every input has direction input and every output direction output |
| OperationNodes.EmitValue | nodes/operation_nodes.py:31-162 | an operator's text is at least five characters, opens with "$((" and closes with "))" |
| OperationNodes.UnconnectedBinary | nodes/operation_nodes.py:8-11 | an operator with both inputs unconnected emits "$((0 op 0))" |
| OperationNodes.OperandFallback | nodes/operation_nodes.py:8-11 | an unconnected input is emitted as 0 whichever side it is on |
| OperationNodes.Resolve | nodes/operation_nodes.py:8-11 | an unconnected operand gives the default "0", a connected one the value expression of its source |
| OperationNodes.Lower | nodes/operation_nodes.py:8-11 | a constant node lowers to its properties; a lowered NOT or binary node has the node type of its operator and, for each operand port, the operand that LowerInput reads there |
| OperationNodes.LowerInput | nodes/operation_nodes.py:8-11 | a port lowers to "unconnected" exactly when it has no edge; a connected operand is the lowering of the source node of the port's first edge |
| OperationNodes.LowerMonotone | nodes/operation_nodes.py:8-11 | once a node lowers, more fuel gives the same tree |
| OperationNodes.LowerInputMonotone | nodes/operation_nodes.py:8-11 | once a port lowers, more fuel gives the same operand |
| OperationNodes.SecondInputUnconnected | nodes/operation_nodes.py:8-34 | a binary node whose second input has no edge emits its first operand, its operator and 0 |
| VariableNodes.SetFedByAddition | nodes/variable_nodes.py:18-24 | a setter named X fed by the Addition of constants 5 and 3 assigns its own empty value, X="", and not the sum's expression |
| OperationNodes.AdditionOfConstants | nodes/operation_nodes.py:13-34 | an Addition fed by the constants 5 and 3 lowers to that expression and emits "$((5 + 3))" |
| ArithSyntax.Render | nodes/operation_nodes.py:20-162 | the rendered text is non-empty and starts with '$' or a literal character |
| ArithSyntax.SymbolOp | nodes/operation_nodes.py:34-151 | a token names an operator exactly when it is that operator's symbol |
| ArithSyntax.SymbolInjective | nodes/operation_nodes.py:34-151 | each symbol decodes to its operator and holds no space |
| ArithSyntax.ParseRender | nodes/operation_nodes.py:20-162 | the text of an expression followed by a delimiter parses back to the expression and leaves the rest untouched |
| ArithSyntax.ParseRenderWhole | nodes/operation_nodes.py:20-162 | the text of an expression parses back to exactly that expression |
| ArithSyntax.RenderInjective | nodes/operation_nodes.py:20-162 | two expressions with the same text are equal |
| ArithSyntax.EmitIsRender | nodes/operation_nodes.py:20-162 | the emitted text of an integer-valued expression is its rendering |
| ArithSyntax.ResolveIsRender | nodes/operation_nodes.py:8-11 | a resolved operand is the rendering of its expression, with 0 standing in for an unconnected input |
| ArithSyntax.EmitParses | nodes/operation_nodes.py:20-162 | the emitted text of an integer-valued expression parses back to it |
| ArithSyntax.EmitDeterminesExpression | nodes/operation_nodes.py:20-162 | two integer-valued expressions that emit the same text normalise to the same arithmetic, where normalising keeps only each constant's value and reads an unconnected input as 0 |
| VariableNodes.Layouts | nodes/variable_nodes.py:5-41 | each new node has its node type and title; set-variable has inputs Exec:EXEC and Value:STRING, output Exec:EXEC and properties variable=VAR, value=""; get-variable has output Value:VARIABLE and variable=VAR; file-exists has input Path:PATH, output Result:STRING and path=""; inputs have direction input, outputs direction output |
| VariableNodes.SourceProperty | nodes/variable_nodes.py:18-21 | with no edge the node's own value is used, otherwise the own value or a property of some node |
| VariableNodes.SourcePropertyCases | nodes/variable_nodes.py:18-21 | with a first edge, the source node's property is used when it has the key, else the own value |
| VariableNodes.Quoted | nodes/variable_nodes.py:24 | quoting adds one double quote at each end |
| VariableNodes.UnquoteQuoted | nodes/variable_nodes.py:24 | unquoting a quoted string gives it back |
| Lines.IndexOf | nodes/variable_nodes.py:24 | the position found is the first occurrence of the character (the '=' of an assignment, the space after an operand), or the end of the text |
| Lines.IndexOfAfter | nodes/variable_nodes.py:24 | in a word free of the character followed by that character, the first occurrence is right after the word |
| VariableNodes.AssignmentRoundTrip | nodes/variable_nodes.py:24 | an assignment line parses back into the variable name and the value |
| VariableNodes.EmitSetVariable | nodes/variable_nodes.py:14-24 | the context's variables map the name to the value and nothing else in the context changes; the line is the assignment |
| VariableNodes.SetVariableFrame | nodes/variable_nodes.py:23 | storing a variable sets that one name and keeps every other entry |
| VariableNodes.DefaultAssignment | nodes/variable_nodes.py:11-24 | a fresh, unconnected setter emits VAR="" |
| VariableNodes.EmitGetVariable | nodes/variable_nodes.py:32-34 | the reference is '$' followed by the variable name |
| VariableNodes.GetRefersToSet | nodes/variable_nodes.py:23-34 | after a setter runs, a getter of the same name finds that setter's value in the variables |
| VariableNodes.EmitFileExists | nodes/variable_nodes.py:43-51 | the test is "-f " followed by the path operand, quoted |
| Registry.RegisteredKeys | nodes/registry.py:1-6 | after a run of registrations the keys are the old keys plus every registered name |
| Registry.RegisteredLast | nodes/registry.py:5 | a name maps to the class of its last registration |
| Registry.NodeRegistry.constructor | nodes/registry.py:1 | the registry starts empty |
| Registry.NodeRegistry.Register | nodes/registry.py:3-7 | registering maps the name to the class, keeps every other entry and returns the class |
| Registry.NodeRegistry.RegisterOperationNodes | nodes/operation_nodes.py:6-153 | the registry after the operation module's decorators is the old one with the thirteen registrations applied in order |
| Registry.RegisterFrame | nodes/registry.py:5 | one registration changes only its own key |
| Registry.NotRegistered | nodes/registry.py:1-7 | a name never registered is not a key |
| Registry.BinaryRegisteredByKind | nodes/operation_nodes.py:23-151 | each binary operator is registered under its node type |
| Registry.ConstantAndNotKeys | nodes/operation_nodes.py:13-162 | NOT is registered under its node type; the integer constant is registered as "int_constant" while its node type is "int_const" |
| Registry.UnregisteredKinds | nodes/operation_nodes.py:13-16 | "int_const" and the three variable node types are not registry keys |
| Clipboard.GraphClipboard.constructor | core/clipboard.py:2-3 | a new clipboard holds nothing |
| Clipboard.GraphClipboard.Set | core/clipboard.py:5-6 | after setting, the clipboard holds that data and reports it |
| Clipboard.GraphClipboard.Get | core/clipboard.py:8-9 | returns the held document itself: the last one set, or None before any |
| Clipboard.GraphClipboard.HasData | core/clipboard.py:11-12 | the clipboard has data exactly when get returns something |
| Serializer.PortRecords | core/serializer.py:25-26 | one port record per port, in order, with its id, name and type value |
| Serializer.NodeRecords | core/serializer.py:17-28 | one node record per node, in graph order |
| Serializer.EdgeRecords | core/serializer.py:30-36 | one edge record per edge, in graph order, with the two port ids |
| Serializer.Serialize | core/serializer.py:9-52 | the document carries the version, every node's fields and ports, every edge's id and port ids, and the comments |
| Serializer.Rebind | core/serializer.py:72-78 | rebinding keeps every port's name, type and direction and gives the first ports the saved ids, as far as both lists go |
| Serializer.IndexPortsFacts | core/serializer.py:72-78 | the port map gains exactly the rebound ids, each mapped to its port on the owning node |
| Serializer.ResolvedPairsFacts | core/serializer.py:80-84 | every reconnected pair comes from an edge record whose two ids resolve, every such record's pair is reconnected, there are no more pairs than records, and when all records resolve there is one pair per record in order |
| Serializer.LoadEdges | core/serializer.py:80-84 | reconnecting leaves the nodes alone |
| Serializer.LoadEdgesFacts | core/serializer.py:80-84 | reconnecting keeps the old edges as a prefix and appends one edge per resolved pair, in order, under the minted ids |
| Serializer.FailurePersists | core/serializer.py:61-63 | once a node record fails, loading the later records changes nothing |
| Serializer.RebindZipped | core/serializer.py:72-78 | pairing stops at the shorter list |
| Serializer.RebindPorts | core/serializer.py:72-78 | the loop's ports and port map are those of the rebinding function |
| Serializer.LoadAllNodes | core/serializer.py:60-78 | the node loop's outcome is that of the node loading function |
| Serializer.Reconnect | core/serializer.py:80-84 | the edge loop's graph is that of the edge loading function |
| Serializer.LoadRecord | core/serializer.py:61-78 | loading one record in place gives that record's loading step |
| Serializer.Deserialize | core/serializer.py:55-85 | the loaded graph and comments, or the failure, are those of the load function |
| Serializer.LoadNodesShape | core/serializer.py:60-70 | a successful node load has one node per record and no edges |
| Serializer.LoadedIds | core/serializer.py:65 | the loaded node ids are exactly the record ids |
| Serializer.LastRecordLoads | core/serializer.py:61-70 | after a good prefix, the last record loads exactly when its type is known and its id is new |
| Serializer.LoadNodesSucceedsIff | core/serializer.py:60-78 | node loading succeeds exactly when no record is bad |
| Serializer.LoadFailsIff | core/serializer.py:55-85 | loading fails exactly when some node record has an unknown type or a repeated id |
| Serializer.LoadedNodes | core/serializer.py:65-69 | each loaded node has its record's id, title, position and properties, and the type of the node the factory builds for the record's type |
| Serializer.NodeIndexFacts | core/serializer.py:72-78 | a node's step adds its rebound input and output ids and keeps every other entry |
| Serializer.RebuiltPreserves | core/serializer.py:65-78 | a node rebuilt from its own record keeps its fields and port ids, and is that node when the layouts match exactly |
| Serializer.IndexOwnPorts | core/serializer.py:72-78 | after a node's step every one of its ports maps to itself on that node |
| Serializer.IndexStep | core/serializer.py:72-78 | the port map still finds the owner of every port loaded so far |
| Serializer.SavedNodesLoad | core/serializer.py:9-78 | the saved nodes of a well-formed graph load, in order, with their fields and a complete port map |
| Serializer.SavedEdgesResolve | core/serializer.py:30-84 | every saved edge resolves to its original endpoints |
| Serializer.SavedGraphNodesLoad | core/serializer.py:9-78 | all saved nodes of a well-formed graph load with a complete port map |
| Serializer.SavedEdgesLoad | core/serializer.py:30-84 | reconnecting the saved edges gives every edge back with its endpoints and a new id |
| Serializer.RoundTrip | core/serializer.py:9-85 | saving then loading succeeds, keeps the comments and the nodes' fields, and gives every edge back between the same ports |
| Serializer.ExactNodesLoad | core/serializer.py:9-78 | when the factory builds each node's exact ports, the loaded nodes are the saved nodes |
| Serializer.ExactRoundTrip | core/serializer.py:9-85 | with such a factory, loading a saved graph gives the same nodes and the same edges with new ids |
| Serializer.UnknownTypeFailsLoad | core/serializer.py:61-63 | a saved node whose type the factory does not know makes the whole load fail |

## Left out

- The Qt user interface of `ui/graph_scene.py` is left out: drawing, item positions, mouse tracking, `start_connection` and the hover lookup in `end_connection`. The scene keeps only its edge item list and the drag flag.
- The deferred commit of a scene edge into the core graph (ui/graph_scene.py:72-77) runs on a Qt timer and is left out.
- `add_core_edge` and the edge position updates of the scene are drawing code and are left out.
- Scene.GraphScene.FinalizeConnection: requires a drag in progress, as the only caller (`end_connection`) returns early without one.
- The JSON text of a document and its parsing are left out; documents are records with the same fields. Record fields always exist, so the `KeyError` the source raises for a document without `nodes` or `edges`, or a record without `type`, `id`, `title`, `x`, `y`, `source` or `target` (core/serializer.py:60-67, 80-82), is not modelled; the optional `properties`, `inputs`, `outputs` and `comments` are.
- The comment scan of the serializer (core/serializer.py:38-50) reads Qt scene items; comments are a parameter passed through unchanged.
- Node colours are presentation only and are not part of the node model or of the saved document.
- The undo commands are not part of this model.
- `core/graph.py` is not part of this model. Its graph is a value with nodes and edges in insertion order. The id of a new edge comes from the `mint` parameter, so edge ids are not preserved by a round trip.
- The node factory is a parameter. The round trip assumes it rebuilds each saved node's port layout.
- Serializer.Deserialize: the source inserts the node before rebinding its ports and relies on object aliasing. The model rebinds first, then inserts. This is the same only if `Graph.add_node` does not record the node's port ids when it inserts the node; `core/graph.py` is not part of this model, and the model assumes it does not.
- Serializer.Load: a port counts as resolved whenever its id is in the port map. Python's truthiness test on ports is taken to mean "not None".
- The function nodes' `emit_bash` and `BaseNode.emit_exec_chain` are not part of this model. They are the `hoist` and `chain` parameters of the emitter, and their return values are unused, as in the source.
- BashEmitter.HoistedOnce: assumes (`KeepsEmitted`) that a function node's `emit_bash` never removes an id from `emitted_nodes`. That code is not part of this model, and an emission that cleared the set could get a later duplicate hoisted and leave earlier ids unmarked.
- OperationNodes.Lower: follows inputs for at most `fuel` steps, because the graph may hold a cycle. It returns nothing for a source node that is not an arithmetic node. `LowerMonotone` shows that the bound only cuts a lowering off: any fuel that suffices gives the same tree.
- ArithSyntax.EmitParses: the parse round trip is stated for integer-valued expressions only; a constant whose value property is a string emits that string verbatim, and such text need not parse.
- VariableNodes.SourceProperty: when the first edge's source node is not in the graph, the node's own value is used. In the source the port's back-reference always names a node.
- VariableNodes.EmitSetVariable: the context's variables are a map from property values to property values, with the ints and strings of the source as one type.
- VariableNodes.EmitSetVariable: requires at least two inputs, as the source indexes the second input; every set-variable node has them.
- VariableNodes.EmitFileExists: requires an input, as the source indexes the first one; every file-exists node has it.
- Clipboard.GraphClipboard.Set: takes a document, never `None`, as its parameter is annotated `dict`; setting `None` (which would empty the clipboard in Python) is not modelled.
