/**
 * The emission context of core/bash_context.py: two line buffers, an indent
 * level, the set of node ids already emitted and the variables assigned so far.
 */
module Context {
  import opened Props
  import opened Lines

  type NodeId = string

  /** A snapshot of every field of a context. */
  datatype ContextState = ContextState(
    variables: map<Prop, Prop>,
    indentLevel: int,
    lines: seq<string>,
    functionLines: seq<string>,
    emittedNodes: set<NodeId>,
    currentBuffer: string)

  /** The state of a freshly constructed context. */
  const Fresh := ContextState(map[], 0, [], [], {}, "main")

  /** The script body: the function buffer, a blank separator line, then the main buffer. */
  function ScriptOf(functionLines: seq<string>, lines: seq<string>): string {
    JoinLines(functionLines + [""] + lines)
  }

  /** With both buffers empty the body is the empty string. */
  lemma ScriptOfEmpty()
    ensures ScriptOf([], []) == ""
  {
  }

  /** When no line holds a newline, the body splits back into exactly the two buffers around one blank line. */
  lemma ScriptOfSplits(functionLines: seq<string>, lines: seq<string>)
    requires NoNewlines(functionLines) && NoNewlines(lines)
    ensures SplitLines(ScriptOf(functionLines, lines)) == functionLines + [""] + lines
  {
    var all := functionLines + [""] + lines;
    assert forall j :: 0 <= j < |all| ==> all[j] == "" || all[j] in functionLines || all[j] in lines;
    SplitJoin(all);
  }

  class BashContext {
    var variables: map<Prop, Prop>
    var indentLevel: int
    var lines: seq<string>
    var functionLines: seq<string>
    var emittedNodes: set<NodeId>
    var currentBuffer: string

    function State(): ContextState
      reads this
    {
      ContextState(variables, indentLevel, lines, functionLines, emittedNodes, currentBuffer)
    }

    constructor ()
      ensures State() == Fresh
    {
      variables := map[];
      indentLevel := 0;
      lines := [];
      functionLines := [];
      emittedNodes := {};
      currentBuffer := "main";
    }

    /** `add_line`: the indented line goes to the function buffer when that is current, else to the main buffer. */
    method AddLine(line: string)
      modifies this
      ensures currentBuffer == "function" ==>
        functionLines == old(functionLines) + [Indentation(indentLevel) + line] && lines == old(lines)
      ensures currentBuffer != "function" ==>
        lines == old(lines) + [Indentation(indentLevel) + line] && functionLines == old(functionLines)
      ensures variables == old(variables) && indentLevel == old(indentLevel)
      ensures emittedNodes == old(emittedNodes) && currentBuffer == old(currentBuffer)
    {
      var indent := Indentation(indentLevel);
      if currentBuffer == "function" {
        functionLines := functionLines + [indent + line];
      } else {
        lines := lines + [indent + line];
      }
    }

    /** `add_function_line`: appends the line, unindented, to the function buffer. */
    method AddFunctionLine(line: string)
      modifies this
      ensures State() == old(State()).(functionLines := old(functionLines) + [line])
    {
      functionLines := functionLines + [line];
    }

    /** `indent`. */
    method Indent()
      modifies this
      ensures State() == old(State()).(indentLevel := old(indentLevel) + 1)
    {
      indentLevel := indentLevel + 1;
    }

    /** `dedent`: one level less, but never below zero. */
    method Dedent()
      modifies this
      ensures indentLevel >= 0
      ensures indentLevel == if old(indentLevel) > 0 then old(indentLevel) - 1 else 0
      ensures State() == old(State()).(indentLevel := indentLevel)
    {
      indentLevel := if indentLevel - 1 > 0 then indentLevel - 1 else 0;
    }

    /** `get_script`: reads the buffers and changes nothing. */
    function GetScript(): (s: string)
      reads this
      ensures functionLines == [] && lines == [] ==> s == ""
      ensures NoNewlines(functionLines) && NoNewlines(lines) ==> SplitLines(s) == functionLines + [""] + lines
    {
      if NoNewlines(functionLines) && NoNewlines(lines) then ScriptOfSplits(functionLines, lines); ScriptOf(functionLines, lines)
      else ScriptOf(functionLines, lines)
    }

    /** `build`: the same text as `get_script`. */
    function Build(): (s: string)
      reads this
      ensures s == GetScript()
    {
      ScriptOf(functionLines, lines)
    }

    /**
     * Stands for a call into the emission code of a node kind that is not part
     * of this model: it may rewrite any field of the context.
     */
    method ApplyEffect(f: ContextState -> ContextState)
      modifies this
      ensures State() == f(old(State()))
    {
      var s := f(State());
      variables, indentLevel, lines, functionLines, emittedNodes, currentBuffer :=
        s.variables, s.indentLevel, s.lines, s.functionLines, s.emittedNodes, s.currentBuffer;
    }
  }
}
