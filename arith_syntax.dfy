/**
 * The shell arithmetic expansions written by the value-expression nodes, as
 * syntax: a tree `Arith`, its text `Render`, and a parser `Parse` that reads
 * the text back. The round trip shows that the emitted text determines the
 * expression tree it came from, for every tree whose constants are integers.
 */
module ArithSyntax {
  import opened Wrappers
  import opened Props
  import opened Lines
  import opened OperationNodes

  datatype Arith = Lit(n: int) | Bin(op: BinOp, l: Arith, r: Arith) | LNot(a: Arith)

  /** A character that can occur in the text of an integer literal. */
  predicate LitChar(c: char) {
    IsDigit(c) || c == '-'
  }

  function Render(e: Arith): (r: string)
    ensures |r| > 0 && (r[0] == '$' || LitChar(r[0]))
  {
    match e
    case Lit(n) => IntText(n)
    case Bin(op, l, r) => "$((" + Render(l) + " " + Symbol(op) + " " + Render(r) + "))"
    case LNot(a) => "$((!" + Render(a) + "))"
  }

  function SymbolOp(t: string): (r: Option<BinOp>)
    ensures r.Some? ==> Symbol(r.value) == t
    ensures r.None? ==> forall op: BinOp :: Symbol(op) != t
  {
    if t == "+" then Some(Add)
    else if t == "-" then Some(Sub)
    else if t == "*" then Some(Mul)
    else if t == "/" then Some(Div)
    else if t == "%" then Some(Mod)
    else if t == "<" then Some(Lt)
    else if t == ">" then Some(Gt)
    else if t == "==" then Some(Eq)
    else if t == "&&" then Some(And)
    else if t == "||" then Some(Or)
    else None
  }

  /** Every operator has its own symbol, and none contains a space. */
  lemma SymbolInjective(op: BinOp)
    ensures SymbolOp(Symbol(op)) == Some(op)
    ensures forall k :: 0 <= k < |Symbol(op)| ==> Symbol(op)[k] != ' '
  {
  }

  /** The length of the longest prefix of `s` made of literal characters. */
  function LitLen(s: string): (k: nat)
    ensures k <= |s|
    ensures forall j :: 0 <= j < k ==> LitChar(s[j])
    ensures k < |s| ==> !LitChar(s[k])
  {
    if s == [] || !LitChar(s[0]) then 0 else 1 + LitLen(s[1..])
  }

  /** Parse one expression at the front of `s`, returning it and the unread rest. */
  function Parse(s: string): (r: Option<(Arith, string)>)
    ensures r.Some? ==> |r.value.1| < |s|
    decreases |s|, 1
  {
    if |s| >= 4 && s[..4] == "$((!" then ParseNot(s[4..])
    else if |s| >= 3 && s[..3] == "$((" then ParseBin(s[3..])
    else ParseLit(s)
  }

  /** The operand and closing parentheses of a logical not, after its opening `$((!`. */
  function ParseNot(s: string): (r: Option<(Arith, string)>)
    ensures r.Some? ==> |r.value.1| < |s|
    decreases |s|, 2
  {
    match Parse(s)
    case None => None
    case Some((a, t)) => if |t| >= 2 && t[..2] == "))" then Some((LNot(a), t[2..])) else None
  }

  /** Both operands, the operator and the closing parentheses of a binary expansion, after its opening `$((`. */
  function ParseBin(s: string): (r: Option<(Arith, string)>)
    ensures r.Some? ==> |r.value.1| < |s|
    decreases |s|, 2
  {
    match Parse(s)
    case None => None
    case Some((l, t)) =>
      if |t| == 0 || t[0] != ' ' then None
      else
        var k := IndexOf(t[1..], ' ');
        match SymbolOp(t[1..][..k])
        case None => None
        case Some(op) =>
          var u := t[1..][k..];
          if |u| == 0 || u[0] != ' ' then None
          else
            match Parse(u[1..])
            case None => None
            case Some((r, v)) => if |v| >= 2 && v[..2] == "))" then Some((Bin(op, l, r), v[2..])) else None
  }

  /** An integer literal: the longest run of literal characters, read as decimal text. */
  function ParseLit(s: string): (r: Option<(Arith, string)>)
    ensures r.Some? ==> |r.value.1| < |s|
  {
    var k := LitLen(s);
    match DecimalValue(s[..k])
    case None => None
    case Some(n) => Some((Lit(n), s[k..]))
  }

  /** What may follow an expression: nothing, or a character that ends a literal. */
  predicate Delimited(rest: string) {
    rest == [] || !LitChar(rest[0])
  }

  lemma {:induction false} LitLenOf(w: string, rest: string)
    requires forall j :: 0 <= j < |w| ==> LitChar(w[j])
    requires Delimited(rest)
    ensures LitLen(w + rest) == |w|
    decreases |w|
  {
    if w != [] {
      assert (w + rest)[1..] == w[1..] + rest;
      LitLenOf(w[1..], rest);
    } else {
      assert w + rest == rest;
    }
  }

  lemma ParseLitStep(n: int, rest: string)
    requires Delimited(rest)
    ensures Parse(Render(Lit(n)) + rest) == Some((Lit(n), rest))
  {
    var w := IntText(n);
    var s := w + rest;
    assert s[0] == w[0];
    LitLenOf(w, rest);
    assert s[..|w|] == w && s[|w|..] == rest;
    IntTextRoundTrip(n);
  }

  lemma ParseNotOpen(x: string)
    ensures Parse("$((!" + x) == ParseNot(x)
  {
    var s := "$((!" + x;
    assert s[..4] == "$((!" && s[4..] == x;
  }

  lemma ParseNotClose(a: Arith, x: string, rest: string)
    requires Parse(x + ("))" + rest)) == Some((a, "))" + rest))
    ensures ParseNot(x + ("))" + rest)) == Some((LNot(a), rest))
  {
    var t := "))" + rest;
    assert t[..2] == "))" && t[2..] == rest;
  }

  /** The text of a negation followed by more text, regrouped from the right. */
  lemma NotText(a: Arith, rest: string)
    ensures Render(LNot(a)) + rest == "$((!" + (Render(a) + ("))" + rest))
  {
    assert Render(LNot(a)) == "$((!" + Render(a) + "))";
  }

  lemma ParseNotStep(a: Arith, rest: string)
    requires Parse(Render(a) + ("))" + rest)) == Some((a, "))" + rest))
    ensures Parse(Render(LNot(a)) + rest) == Some((LNot(a), rest))
  {
    var x := Render(a);
    NotText(a, rest);
    ParseNotOpen(x + ("))" + rest));
    ParseNotClose(a, x, rest);
  }

  lemma ParseBinOpen(x: string)
    requires |x| > 0 && x[0] != '!'
    ensures Parse("$((" + x) == ParseBin(x)
  {
    var s := "$((" + x;
    assert s[..4][3] == x[0] && "$((!"[3] == '!';
    assert s[..4] != "$((!";
    assert s[..3] == "$((" && s[3..] == x;
  }


  /** After the left operand: the operator between single spaces, the right operand, and the closing parentheses. */
  lemma ParseBinTail(op: BinOp, l: Arith, r: Arith, x: string, y: string, rest: string)
    requires Parse(x + (" " + (Symbol(op) + (" " + (y + ("))" + rest)))))) ==
      Some((l, " " + (Symbol(op) + (" " + (y + ("))" + rest))))))
    requires Parse(y + ("))" + rest)) == Some((r, "))" + rest))
    ensures ParseBin(x + (" " + (Symbol(op) + (" " + (y + ("))" + rest)))))) == Some((Bin(op, l, r), rest))
  {
    var sym := Symbol(op);
    var v := "))" + rest;
    var u := " " + (y + v);
    var t := " " + (sym + u);
    SymbolInjective(op);
    assert t[1..] == sym + u;
    IndexOfAfter(sym, u, ' ');
    assert t[1..][..|sym|] == sym && t[1..][|sym|..] == u;
    assert u[1..] == y + v;
    assert v[..2] == "))" && v[2..] == rest;
  }

  /** The text of an operator node followed by more text, regrouped from the right. */
  lemma BinText(op: BinOp, l: Arith, r: Arith, rest: string)
    ensures Render(Bin(op, l, r)) + rest ==
      "$((" + (Render(l) + (" " + (Symbol(op) + (" " + (Render(r) + ("))" + rest))))))
  {
    var x, sym, y := Render(l), Symbol(op), Render(r);
    assert Render(Bin(op, l, r)) == "$((" + x + " " + sym + " " + y + "))";
    SeqRegroup("$((", x, " ", sym, " ", y, "))", rest);
  }

  lemma SeqRegroup(a: string, b: string, c: string, d: string, e: string, f: string, g: string, h: string)
    ensures a + b + c + d + e + f + g + h == a + (b + (c + (d + (e + (f + (g + h))))))
  {
  }

  lemma ParseBinStep(op: BinOp, l: Arith, r: Arith, rest: string)
    requires Parse(Render(l) + (" " + (Symbol(op) + (" " + (Render(r) + ("))" + rest)))))) ==
      Some((l, " " + (Symbol(op) + (" " + (Render(r) + ("))" + rest))))))
    requires Parse(Render(r) + ("))" + rest)) == Some((r, "))" + rest))
    ensures Parse(Render(Bin(op, l, r)) + rest) == Some((Bin(op, l, r), rest))
  {
    var x := Render(l);
    var y := Render(r);
    var tail := x + (" " + (Symbol(op) + (" " + (y + ("))" + rest)))));
    BinText(op, l, r, rest);
    assert tail[0] == x[0];
    ParseBinOpen(tail);
    ParseBinTail(op, l, r, x, y, rest);
  }

  /** Parsing the text of an expression followed by a delimited rest yields the expression and that rest. */
  lemma {:induction false} ParseRender(e: Arith, rest: string)
    requires Delimited(rest)
    ensures Parse(Render(e) + rest) == Some((e, rest))
  {
    match e
    case Lit(n) =>
      ParseLitStep(n, rest);
    case LNot(a) =>
      ParseRender(a, "))" + rest);
      ParseNotStep(a, rest);
    case Bin(op, l, r) =>
      ParseRender(l, " " + (Symbol(op) + (" " + (Render(r) + ("))" + rest)))));
      ParseRender(r, "))" + rest);
      ParseBinStep(op, l, r, rest);
  }

  /** The text of an expression, taken whole, parses back to that expression. */
  lemma ParseRenderWhole(e: Arith)
    ensures Parse(Render(e)) == Some((e, ""))
  {
    ParseRender(e, "");
    assert Render(e) + "" == Render(e);
  }

  /** Two expressions with the same text are the same expression. */
  lemma RenderInjective(e1: Arith, e2: Arith)
    requires Render(e1) == Render(e2)
    ensures e1 == e2
  {
    ParseRenderWhole(e1);
    ParseRenderWhole(e2);
  }

  // ---- The value-expression nodes as syntax ----

  /** Every integer constant in the tree holds an int value, or none (read as 0). */
  predicate IntValued(e: ValueExpr) {
    match e
    case IntConst(props) => "value" !in props || props["value"].IntValue?
    case Binary(_, a, b) => IntValuedOperand(a) && IntValuedOperand(b)
    case Not(a) => IntValuedOperand(a)
  }

  predicate IntValuedOperand(o: Operand) {
    match o
    case Unconnected => true
    case Connected(e) => IntValued(e)
  }

  /** The expression a value-expression tree denotes, with unconnected operands read as 0. */
  function Normalize(e: ValueExpr): Arith
    requires IntValued(e)
  {
    match e
    case IntConst(props) => Lit(Get(props, "value", IntValue(0)).i)
    case Binary(op, a, b) => Bin(op, NormalizeOperand(a), NormalizeOperand(b))
    case Not(a) => LNot(NormalizeOperand(a))
  }

  function NormalizeOperand(o: Operand): Arith
    requires IntValuedOperand(o)
  {
    match o
    case Unconnected => Lit(0)
    case Connected(e) => Normalize(e)
  }

  /** A node tree emits exactly the text of the expression it denotes. */
  lemma {:induction false} EmitIsRender(e: ValueExpr)
    requires IntValued(e)
    ensures EmitValue(e) == Render(Normalize(e))
  {
    match e
    case IntConst(props) =>
    case Binary(op, a, b) =>
      ResolveIsRender(a);
      ResolveIsRender(b);
    case Not(a) =>
      ResolveIsRender(a);
  }

  lemma {:induction false} ResolveIsRender(o: Operand)
    requires IntValuedOperand(o)
    ensures Resolve(o) == Render(NormalizeOperand(o))
  {
    match o
    case Unconnected =>
      assert IntText(0) == [DigitChar(0)];
    case Connected(e) =>
      EmitIsRender(e);
  }

  /** The emitted text of an int-valued tree parses back to the expression the tree denotes. */
  lemma EmitParses(e: ValueExpr)
    requires IntValued(e)
    ensures Parse(EmitValue(e)) == Some((Normalize(e), ""))
  {
    EmitIsRender(e);
    ParseRenderWhole(Normalize(e));
  }

  /** Two int-valued trees that emit the same text denote the same expression. */
  lemma EmitDeterminesExpression(e1: ValueExpr, e2: ValueExpr)
    requires IntValued(e1) && IntValued(e2)
    requires EmitValue(e1) == EmitValue(e2)
    ensures Normalize(e1) == Normalize(e2)
  {
    EmitParses(e1);
    EmitParses(e2);
  }
}
