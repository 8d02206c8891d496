/**
 * The bound tree printer (IO/BoundNodePrinter.cs): writes statements and expressions of a
 * bound tree as source-like text through an indented text writer, indenting nested
 * statements, pulling labels one level out and parenthesising nested operator expressions
 * by precedence.
 *
 * The writer is a class whose methods change its text, indent and pending-tabs flag; every
 * printing method is proved against a function on the writer's state (`StmtOut`, `ExprText`),
 * and the properties of the printed form are lemmas about those functions.
 */
module BoundNodePrinter {
  import opened Wrappers
  import opened SyntaxFacts
  import opened Strings

  /** The observable state of an indented text writer. */
  datatype WriterState = WriterState(text: string, indent: nat, tabsPending: bool)

  /** The default tab string of an indented text writer: four spaces. */
  const TabString: string := "    "

  /** `n` copies of the tab string. */
  function Tabs(n: nat): (r: string)
    ensures |r| == 4 * n
    ensures forall i :: 0 <= i < |r| ==> r[i] == ' '
  {
    if n == 0 then "" else Tabs(n - 1) + TabString
  }

  /** The indentation a write emits first: the tabs when a line has just begun, else nothing. */
  function Pending(w: WriterState): string
  {
    if w.tabsPending then Tabs(w.indent) else ""
  }

  /** `Write(s)`: emit the pending tabs, then `s`. */
  function Put(w: WriterState, s: string): WriterState
  {
    WriterState(w.text + Pending(w) + s, w.indent, false)
  }

  /** `WriteLine()`: emit the pending tabs and a line break; the next write starts a line. */
  function Line(w: WriterState): WriterState
  {
    WriterState(w.text + Pending(w) + "\n", w.indent, true)
  }

  /** The `Indent` setter, which turns a negative value into 0. */
  function Indented(w: WriterState, value: int): WriterState
  {
    w.(indent := if value < 0 then 0 else value)
  }

  /** Consecutive writes emit the tabs once: they equal one write of the concatenation. */
  lemma PutPut(w: WriterState, a: string, b: string)
    ensures Put(Put(w, a), b) == Put(w, a + b)
  {
    assert w.text + Pending(w) + a + b == w.text + Pending(w) + (a + b);
  }

  /** An indented text writer over an in-memory text. */
  class IndentedTextWriter {
    var text: string
    var indent: nat
    var tabsPending: bool

    function State(): WriterState
      reads this
    {
      WriterState(text, indent, tabsPending)
    }

    constructor()
      ensures State() == WriterState("", 0, false)
    {
      text := "";
      indent := 0;
      tabsPending := false;
    }

    method Write(s: string)
      modifies this
      ensures State() == Put(old(State()), s)
    {
      if tabsPending {
        text := text + Tabs(indent);
        tabsPending := false;
      }
      text := text + s;
    }

    method WriteLine()
      modifies this
      ensures State() == Line(old(State()))
    {
      if tabsPending {
        text := text + Tabs(indent);
      }
      text := text + "\n";
      tabsPending := true;
    }

    method SetIndent(value: int)
      modifies this
      ensures State() == Indented(old(State()), value)
    {
      indent := if value < 0 then 0 else value;
    }
  }

  // ---------------------------------------------------------------- printed nodes

  /** A literal's value, tagged by the literal's type. */
  datatype Literal =
    | NullLiteral
    | BoolLiteral(b: bool)
    | IntLiteral(i: int)
    | StringLiteral(s: string)
      /** A decimal literal, carrying the text its value formats to. */
    | DecimalLiteral(formatted: string)
      /** A literal of any other type, which the printer refuses. */
    | OtherLiteral(typeName: string)

  datatype Expr =
    | LiteralExpr(value: Literal)
    | VariableExpr(name: string)
    | AssignmentExpr(left: Expr, right: Expr)
    | UnaryExpr(op: SyntaxKind, operand: Expr)
    | BinaryExpr(left: Expr, op: SyntaxKind, right: Expr)
    | TernaryExpr(left: Expr, leftOp: SyntaxKind, center: Expr, rightOp: SyntaxKind, right: Expr)
    | EmptyExpr
    | ErrorExpr

  datatype Stmt =
    | NopStmt
    | BlockStmt(statements: seq<Stmt>)
    | ExpressionStmt(expression: Expr)
      /** A declaration; the variable's type is its base type's name and its array dimensions. */
    | VariableDeclarationStmt(baseType: string, dimensions: nat, name: string, initializer: Expr)
    | IfStmt(condition: Expr, thenStmt: Stmt, elseStmt: Option<Stmt>)
    | WhileStmt(condition: Expr, body: Stmt)
    | DoWhileStmt(body: Stmt, condition: Expr)
    | LabelStmt(name: string)
    | GotoStmt(name: string)
    | ConditionalGotoStmt(name: string, condition: Expr, jumpIfTrue: bool)
    | ReturnStmt(returned: Option<Expr>)

  function StmtSize(s: Stmt): (r: nat)
    ensures r >= 1
  {
    match s
    case BlockStmt(ss) => 1 + StmtsSize(ss)
    case IfStmt(_, t, e) => 1 + StmtSize(t) + (if e.Some? then StmtSize(e.value) else 0)
    case WhileStmt(_, body) => 1 + StmtSize(body)
    case DoWhileStmt(body, _) => 1 + StmtSize(body)
    case _ => 1
  }

  function StmtsSize(ss: seq<Stmt>): nat
  {
    if ss == [] then 0 else StmtsSize(ss[..|ss| - 1]) + StmtSize(ss[|ss| - 1])
  }

  lemma {:induction false} StmtsSizeElement(ss: seq<Stmt>, i: int)
    requires 0 <= i < |ss|
    ensures StmtSize(ss[i]) <= StmtsSize(ss)
    decreases |ss|
  {
    if i < |ss| - 1 {
      StmtsSizeElement(ss[..|ss| - 1], i);
    }
  }

  // ---------------------------------------------------------------- texts

  /** The text of a punctuation token or keyword kind; a kind without fixed text writes nothing. */
  function TokenText(k: SyntaxKind): string
  {
    GetText(k).GetOr("")
  }

  /** A string's characters with every double quote doubled. */
  function Escape(s: string): (r: string)
    ensures |r| >= |s|
  {
    if s == [] then ""
    else (if s[0] == '"' then "\"\"" else [s[0]]) + Escape(s[1..])
  }

  /** Undoes `Escape`: a doubled double quote becomes one. */
  function Unescape(t: string): string
  {
    if t == [] then ""
    else if |t| >= 2 && t[0] == '"' && t[1] == '"' then "\"" + Unescape(t[2..])
    else [t[0]] + Unescape(t[1..])
  }

  /** A string literal as printed: in double quotes, inner quotes doubled. */
  function Quote(s: string): (r: string)
    ensures |r| >= 2 && r[0] == '"' && r[|r| - 1] == '"'
  {
    "\"" + Escape(s) + "\""
  }

  /** Reads a printed string literal back; None when the text is not in double quotes. */
  function Unquote(q: string): Option<string>
  {
    if |q| >= 2 && q[0] == '"' && q[|q| - 1] == '"' then Some(Unescape(q[1..|q| - 1])) else None
  }

  function QuoteCount(s: string): nat
  {
    if s == [] then 0 else (if s[0] == '"' then 1 else 0) + QuoteCount(s[1..])
  }

  lemma {:induction false} UnescapeEscape(s: string)
    ensures Unescape(Escape(s)) == s
  {
    if s != [] {
      UnescapeEscape(s[1..]);
      var rest := Escape(s[1..]);
      if s[0] == '"' {
        assert Escape(s) == "\"\"" + rest;
        assert Escape(s)[2..] == rest;
      } else {
        assert Escape(s) == [s[0]] + rest;
        assert Escape(s)[1..] == rest;
      }
      assert s == [s[0]] + s[1..];
    }
  }

  /** String literals round-trip: reading back a printed literal gives the original string. */
  lemma QuoteRoundTrip(s: string)
    ensures Unquote(Quote(s)) == Some(s)
  {
    var q := Quote(s);
    assert q[1..|q| - 1] == Escape(s);
    UnescapeEscape(s);
  }

  /** Escaping adds exactly one character per double quote in the string. */
  lemma {:induction false} EscapeLength(s: string)
    ensures |Escape(s)| == |s| + QuoteCount(s)
  {
    if s != [] {
      EscapeLength(s[1..]);
    }
  }

  /** C#'s `bool.ToString()`, the text the printer writes for a boolean literal. */
  function BoolText(b: bool): string
  {
    if b then "True" else "False"
  }

  /** The text of a literal; None where the printer throws for an unexpected type. */
  function LiteralText(v: Literal): (r: Option<string>)
    ensures r.None? <==> v.OtherLiteral?
    ensures v.StringLiteral? ==> r == Some(Quote(v.s)) && Unquote(r.value) == Some(v.s)
  {
    match v
    case NullLiteral => Some("null")
    case BoolLiteral(b) => Some(BoolText(b))
    case IntLiteral(i) => Some(IntToString(i))
    case StringLiteral(s) => QuoteRoundTrip(s); Some(Quote(s))
    case DecimalLiteral(formatted) => Some(formatted)
    case OtherLiteral(_) => None
  }

  function Cat(a: Option<string>, b: Option<string>): (r: Option<string>)
    ensures r.Some? <==> a.Some? && b.Some?
  {
    if a.Some? && b.Some? then Some(a.value + b.value) else None
  }

  /** The precedence an operator expression is parenthesised by; None for every other expression. */
  function OperatorPrecedence(e: Expr): Option<nat>
  {
    match e
    case UnaryExpr(op, _) => Some(UnaryPrecedence(op))
    case BinaryExpr(_, op, _) => Some(BinaryPrecedence(op))
    case TernaryExpr(_, leftOp, _, _, _) => Some(TernaryPrecedence(leftOp))
    case _ => None
  }

  /** Whether an operand is parenthesised: an assignment is judged by its right side. */
  predicate NeedsParentheses(parentPrecedence: int, e: Expr)
  {
    var judged := if e.AssignmentExpr? then e.right else e;
    OperatorPrecedence(judged).Some? && parentPrecedence >= OperatorPrecedence(judged).value
  }

  /** The text an expression prints as; None when it holds a literal the printer refuses. */
  function ExprText(e: Expr): Option<string>
    decreases e, 0
  {
    match e
    case LiteralExpr(v) => LiteralText(v)
    case VariableExpr(name) => Some(name)
    case AssignmentExpr(l, r) => Cat(Cat(ExprText(l), Some(" = ")), ExprText(r))
    case UnaryExpr(op, x) => Cat(Some(TokenText(op)), NestedText(UnaryPrecedence(op), x))
    case BinaryExpr(l, op, r) =>
      var p := BinaryPrecedence(op);
      Cat(Cat(NestedText(p, l), Some(" " + TokenText(op) + " ")), NestedText(p, r))
    case TernaryExpr(l, leftOp, c, rightOp, r) =>
      var p := TernaryPrecedence(leftOp);
      Cat(Cat(Cat(Cat(NestedText(p, l), Some(" " + TokenText(leftOp) + " ")), NestedText(p, c)),
        Some(" " + TokenText(rightOp) + " ")), NestedText(p, r))
    case EmptyExpr => Some("")
    case ErrorExpr => Some("?")
  }

  /** The text of an operand under an operator of the given precedence. */
  function NestedText(parentPrecedence: int, e: Expr): Option<string>
    decreases e, 2
  {
    if NeedsParentheses(parentPrecedence, e) then Cat(Cat(Some("("), ExprText(e)), Some(")"))
    else ExprText(e)
  }

  /** The writer after writing `e` with the given text: the empty expression issues no write at all. */
  function Written(w: WriterState, e: Expr, text: string): WriterState
  {
    if e.EmptyExpr? then w else Put(w, text)
  }

  predicate HasUnprintableLiteral(e: Expr)
  {
    match e
    case LiteralExpr(v) => v.OtherLiteral?
    case AssignmentExpr(l, r) => HasUnprintableLiteral(l) || HasUnprintableLiteral(r)
    case UnaryExpr(_, x) => HasUnprintableLiteral(x)
    case BinaryExpr(l, _, r) => HasUnprintableLiteral(l) || HasUnprintableLiteral(r)
    case TernaryExpr(l, _, c, _, r) => HasUnprintableLiteral(l) || HasUnprintableLiteral(c) || HasUnprintableLiteral(r)
    case _ => false
  }

  /** Printing an expression throws exactly when it holds a literal of a type the printer refuses. */
  lemma {:induction false} ExprTextDefined(e: Expr)
    ensures ExprText(e).None? <==> HasUnprintableLiteral(e)
    ensures forall p: int :: NestedText(p, e).None? <==> HasUnprintableLiteral(e)
  {
    match e
    case AssignmentExpr(l, r) => ExprTextDefined(l); ExprTextDefined(r);
    case UnaryExpr(_, x) => ExprTextDefined(x);
    case BinaryExpr(l, _, r) => ExprTextDefined(l); ExprTextDefined(r);
    case TernaryExpr(l, _, c, _, r) => ExprTextDefined(l); ExprTextDefined(c); ExprTextDefined(r);
    case _ =>
  }

  /** An operand is written in parentheses exactly when the parent's precedence is at least its own. */
  lemma NestedParenthesisedIff(parentPrecedence: int, e: Expr)
    requires ExprText(e).Some?
    ensures NestedText(parentPrecedence, e).Some?
    ensures NestedText(parentPrecedence, e).value == "(" + ExprText(e).value + ")"
      <==> NeedsParentheses(parentPrecedence, e)
    ensures !NeedsParentheses(parentPrecedence, e) ==> NestedText(parentPrecedence, e) == ExprText(e)
  {
    if !NeedsParentheses(parentPrecedence, e) {
      assert |"(" + ExprText(e).value + ")"| != |ExprText(e).value|;
    }
  }

  /** An operand of equal precedence is parenthesised on either side, so `a - b - c` and `a - (b - c)` print apart. */
  lemma EqualPrecedenceParenthesised(a: Expr, op1: SyntaxKind, b: Expr, op2: SyntaxKind, c: Expr)
    requires BinaryPrecedence(op1) == BinaryPrecedence(op2)
    requires ExprText(a).Some? && ExprText(b).Some? && ExprText(c).Some?
    ensures ExprText(BinaryExpr(BinaryExpr(a, op1, b), op2, c)).Some?
    ensures ExprText(BinaryExpr(BinaryExpr(a, op1, b), op2, c)).value[0] == '('
    ensures ExprText(BinaryExpr(a, op1, BinaryExpr(b, op2, c))).Some?
    ensures ExprText(BinaryExpr(a, op1, BinaryExpr(b, op2, c))).value[|ExprText(BinaryExpr(a, op1, BinaryExpr(b, op2, c))).value| - 1] == ')'
  {
    var p := BinaryPrecedence(op2);
    NestedParenthesisedIff(p, a);
    NestedParenthesisedIff(p, b);
    NestedParenthesisedIff(p, c);
    NestedParenthesisedIff(p, BinaryExpr(a, op1, b));
    NestedParenthesisedIff(p, BinaryExpr(b, op2, c));
  }

  /** Literals and variables are never parenthesised, whatever the parent. */
  lemma PrimaryNeverParenthesised(parentPrecedence: int, e: Expr)
    requires e.LiteralExpr? || e.VariableExpr?
    ensures NestedText(parentPrecedence, e) == ExprText(e)
  {
  }

  // ---------------------------------------------------------------- expression writing

  method WriteLiteralExpression(w: IndentedTextWriter, v: Literal) returns (ok: bool)
    modifies w
    ensures ok <==> LiteralText(v).Some?
    ensures ok ==> w.State() == Put(old(w.State()), LiteralText(v).value)
  {
    match v
    case NullLiteral => w.Write("null"); ok := true;
    case BoolLiteral(b) => w.Write(BoolText(b)); ok := true;
    case IntLiteral(i) => w.Write(IntToString(i)); ok := true;
    case StringLiteral(s) => w.Write(Quote(s)); ok := true;
    case DecimalLiteral(formatted) => w.Write(formatted); ok := true;
    case OtherLiteral(_) => ok := false;
  }

  /** `WriteTo` on an expression. */
  method WriteExpression(w: IndentedTextWriter, e: Expr) returns (ok: bool)
    modifies w
    ensures ok <==> ExprText(e).Some?
    ensures ok ==> w.State() == Written(old(w.State()), e, ExprText(e).value)
    decreases e, 3
  {
    match e
    case LiteralExpr(v) =>
      ok := WriteLiteralExpression(w, v);
    case VariableExpr(name) =>
      w.Write(name);
      ok := true;
    case AssignmentExpr(_, _) =>
      ok := WriteAssignmentExpression(w, e);
    case UnaryExpr(_, _) =>
      ok := WriteUnaryExpression(w, e);
    case BinaryExpr(_, _, _) =>
      ok := WriteBinaryExpression(w, e);
    case TernaryExpr(_, _, _, _, _) =>
      ok := WriteTernaryExpression(w, e);
    case EmptyExpr =>
      ok := true;
    case ErrorExpr =>
      w.Write("?");
      ok := true;
  }

  method WriteAssignmentExpression(w: IndentedTextWriter, e: Expr) returns (ok: bool)
    requires e.AssignmentExpr?
    modifies w
    ensures ok <==> ExprText(e).Some?
    ensures ok ==> w.State() == Put(old(w.State()), ExprText(e).value)
    decreases e, 2
  {
    ghost var w0 := w.State();
    ok := WriteExpression(w, e.left);
    if !ok { return; }
    w.Write(" = ");
    PutAfterWritten(w0, e.left, ExprText(e.left).value, " = ");
    ok := WriteExpression(w, e.right);
    if ok {
      WrittenAfterPut(w0, ExprText(e.left).value + " = ", e.right, ExprText(e.right).value);
    }
  }

  method WriteUnaryExpression(w: IndentedTextWriter, e: Expr) returns (ok: bool)
    requires e.UnaryExpr?
    modifies w
    ensures ok <==> ExprText(e).Some?
    ensures ok ==> w.State() == Put(old(w.State()), ExprText(e).value)
    decreases e, 2
  {
    ghost var w0 := w.State();
    w.Write(TokenText(e.op));
    ok := WriteNestedExpression(w, UnaryPrecedence(e.op), e.operand);
    if ok {
      WrittenAfterPut(w0, TokenText(e.op), e.operand, NestedText(UnaryPrecedence(e.op), e.operand).value);
    }
  }

  method WriteBinaryExpression(w: IndentedTextWriter, e: Expr) returns (ok: bool)
    requires e.BinaryExpr?
    modifies w
    ensures ok <==> ExprText(e).Some?
    ensures ok ==> w.State() == Put(old(w.State()), ExprText(e).value)
    decreases e, 2
  {
    ghost var w0 := w.State();
    var p := BinaryPrecedence(e.op);
    var middle := " " + TokenText(e.op) + " ";
    ok := WriteNestedExpression(w, p, e.left);
    if !ok { return; }
    ghost var lt := NestedText(p, e.left).value;
    w.Write(middle);
    PutAfterWritten(w0, e.left, lt, middle);
    ok := WriteNestedExpression(w, p, e.right);
    if ok {
      WrittenAfterPut(w0, lt + middle, e.right, NestedText(p, e.right).value);
    }
  }

  method WriteTernaryExpression(w: IndentedTextWriter, e: Expr) returns (ok: bool)
    requires e.TernaryExpr?
    modifies w
    ensures ok <==> ExprText(e).Some?
    ensures ok ==> w.State() == Put(old(w.State()), ExprText(e).value)
    decreases e, 2
  {
    ghost var w0 := w.State();
    var p := TernaryPrecedence(e.leftOp);
    var first := " " + TokenText(e.leftOp) + " ";
    var second := " " + TokenText(e.rightOp) + " ";
    ok := WriteNestedExpression(w, p, e.left);
    if !ok { return; }
    ghost var t1 := NestedText(p, e.left).value + first;
    w.Write(first);
    PutAfterWritten(w0, e.left, NestedText(p, e.left).value, first);
    ok := WriteNestedExpression(w, p, e.center);
    if !ok { return; }
    WrittenAfterPut(w0, t1, e.center, NestedText(p, e.center).value);
    ghost var t2 := t1 + NestedText(p, e.center).value + second;
    w.Write(second);
    PutPut(w0, t1 + NestedText(p, e.center).value, second);
    ok := WriteNestedExpression(w, p, e.right);
    if ok {
      WrittenAfterPut(w0, t2, e.right, NestedText(p, e.right).value);
    }
  }

  lemma PutAfterWritten(w: WriterState, e: Expr, t: string, s: string)
    requires e.EmptyExpr? ==> t == ""
    ensures Put(Written(w, e, t), s) == Put(w, t + s)
  {
    if !e.EmptyExpr? {
      PutPut(w, t, s);
    } else {
      assert t + s == s;
    }
  }

  lemma WrittenAfterPut(w: WriterState, s: string, e: Expr, t: string)
    requires e.EmptyExpr? ==> t == ""
    ensures Written(Put(w, s), e, t) == Put(w, s + t)
  {
    if !e.EmptyExpr? {
      PutPut(w, s, t);
    } else {
      assert s + t == s;
    }
  }

  /** `WriteNestedExpression(parentPrecedence, expression)`: an operand under an operator. */
  method WriteNestedExpression(w: IndentedTextWriter, parentPrecedence: int, e: Expr) returns (ok: bool)
    modifies w
    ensures ok <==> NestedText(parentPrecedence, e).Some?
    ensures ok ==> w.State() == Written(old(w.State()), e, NestedText(parentPrecedence, e).value)
    decreases e, 6
  {
    var judged := if e.AssignmentExpr? then e.right else e;
    var precedence := OperatorPrecedence(judged);
    if precedence.Some? {
      ok := WriteWithPrecedence(w, parentPrecedence, precedence.value, e);
    } else {
      ok := WriteExpression(w, e);
    }
  }

  /** `WriteNestedExpression(parentPrecedence, currentPrecedence, expression)`: parentheses iff the parent binds at least as tightly. */
  method WriteWithPrecedence(w: IndentedTextWriter, parentPrecedence: int, currentPrecedence: int, e: Expr)
    returns (ok: bool)
    modifies w
    requires !e.EmptyExpr?
    ensures ok <==> ExprText(e).Some?
    ensures ok ==> w.State() == Put(old(w.State()),
      if parentPrecedence >= currentPrecedence then "(" + ExprText(e).value + ")" else ExprText(e).value)
    decreases e, 5
  {
    ghost var w0 := w.State();
    var needsParenthesis := parentPrecedence >= currentPrecedence;
    if needsParenthesis {
      w.Write("(");
    }
    ok := WriteExpression(w, e);
    if ok && needsParenthesis {
      w.Write(")");
      PutPut(w0, "(", ExprText(e).value);
      PutPut(w0, "(" + ExprText(e).value, ")");
    }
  }

  // ---------------------------------------------------------------- statements

  /** `"[]"` once per array dimension. */
  function Brackets(dimensions: nat): (r: string)
    ensures |r| == 2 * dimensions
  {
    if dimensions == 0 then "" else Brackets(dimensions - 1) + "[]"
  }

  /** The brackets alternate `[` and `]`, one pair per dimension. */
  lemma {:induction false} BracketsAlternate(dimensions: nat)
    ensures forall i :: 0 <= i < |Brackets(dimensions)| ==> Brackets(dimensions)[i] == if i % 2 == 0 then '[' else ']'
  {
    if dimensions > 0 {
      BracketsAlternate(dimensions - 1);
    }
  }

  /** `WriteType`: the base type's name, then one `[]` per dimension. */
  method WriteType(w: IndentedTextWriter, baseType: string, dimensions: nat)
    modifies w
    ensures w.State() == Put(old(w.State()), baseType + Brackets(dimensions))
  {
    ghost var w0 := w.State();
    w.Write(baseType);
    var brackets := "";
    var i := 0;
    while i < dimensions
      invariant 0 <= i <= dimensions
      invariant brackets == Brackets(i)
    {
      brackets := brackets + "[]";
      i := i + 1;
    }
    w.Write(brackets);
    PutPut(w0, baseType, brackets);
  }

  /** The writer after an expression, or None once printing has thrown. */
  function ExprOut(o: Option<WriterState>, e: Expr): Option<WriterState>
  {
    if o.None? || ExprText(e).None? then None else Some(Written(o.value, e, ExprText(e).value))
  }

  function PutOut(o: Option<WriterState>, s: string): Option<WriterState>
  {
    if o.None? then None else Some(Put(o.value, s))
  }

  function LineOut(o: Option<WriterState>): Option<WriterState>
  {
    if o.None? then None else Some(Line(o.value))
  }

  /** The writer after printing a statement; None once printing has thrown. */
  function StmtOut(w: WriterState, s: Stmt): Option<WriterState>
    decreases StmtSize(s), 0
  {
    match s
    case NopStmt => Some(Line(Put(w, "nop")))
    case BlockStmt(ss) =>
      var begun := Line(Put(w, "{"));
      var inner := StmtsOut(Indented(begun, begun.indent + 1), ss);
      if inner.None? then None
      else Some(Line(Put(Indented(inner.value, inner.value.indent - 1), "}")))
    case ExpressionStmt(e) =>
      if e.EmptyExpr? then Some(w) else LineOut(ExprOut(Some(w), e))
    case VariableDeclarationStmt(baseType, dimensions, name, initializer) =>
      LineOut(ExprOut(Some(Put(w, baseType + Brackets(dimensions) + " " + name + " = ")), initializer))
    case IfStmt(c, t, e) =>
      var head := LineOut(PutOut(ExprOut(Some(Put(w, "if (")), c), ") {"));
      if head.None? then None else
      var thenOut := NestedOut(head.value, t);
      if thenOut.None? then None else
      var closed := Put(thenOut.value, "}");
      if e.None? then Some(Line(closed)) else
      var elseOut := NestedOut(Line(Put(closed, " else {")), e.value);
      if elseOut.None? then None else Some(Line(Put(elseOut.value, "}")))
    case WhileStmt(c, body) =>
      var head := LineOut(PutOut(ExprOut(Some(Put(w, "while (")), c), ") {"));
      if head.None? then None else
      var bodyOut := NestedOut(head.value, body);
      if bodyOut.None? then None else Some(Line(Put(bodyOut.value, "}")))
    case DoWhileStmt(body, c) =>
      var bodyOut := NestedOut(Line(Put(w, "do {")), body);
      if bodyOut.None? then None
      else LineOut(PutOut(ExprOut(Some(Put(bodyOut.value, "} while (")), c), ")"))
    case LabelStmt(name) =>
      var unindent := w.indent > 0;
      var outdented := if unindent then Indented(w, w.indent - 1) else w;
      var written := Line(Put(outdented, name + ":"));
      Some(if unindent then Indented(written, written.indent + 1) else written)
    case GotoStmt(name) => Some(Line(Put(w, "goto " + name)))
    case ConditionalGotoStmt(name, c, jumpIfTrue) =>
      LineOut(ExprOut(Some(Put(w, "goto " + name + " " + (if jumpIfTrue then "if" else "unless") + " ")), c))
    case ReturnStmt(e) =>
      if e.None? then Some(Line(Put(w, "return")))
      else LineOut(ExprOut(Some(Put(w, "return ")), e.value))
  }

  /** `WriteNestedStatement`: a statement other than a block is written one level deeper. */
  function NestedOut(w: WriterState, s: Stmt): Option<WriterState>
    decreases StmtSize(s), 1
  {
    if s.BlockStmt? then StmtOut(w, s)
    else
      var inner := StmtOut(Indented(w, w.indent + 1), s);
      if inner.None? then None else Some(Indented(inner.value, inner.value.indent - 1))
  }

  /** The statements of a block, written one after another. */
  function StmtsOut(w: WriterState, ss: seq<Stmt>): Option<WriterState>
    decreases StmtsSize(ss), 2
  {
    if ss == [] then Some(w)
    else
      var before := StmtsOut(w, ss[..|ss| - 1]);
      if before.None? then None else StmtOut(before.value, ss[|ss| - 1])
  }

  /** Once one statement of a block throws, the whole block does. */
  lemma {:induction false} StmtsOutStops(w: WriterState, ss: seq<Stmt>, i: nat)
    requires i <= |ss|
    requires StmtsOut(w, ss[..i]).None?
    ensures StmtsOut(w, ss).None?
    decreases |ss| - i
  {
    if i < |ss| {
      assert ss[..i + 1][..i] == ss[..i];
      StmtsOutStops(w, ss, i + 1);
    } else {
      assert ss[..i] == ss;
    }
  }

  /**
   * Every statement leaves the indent as it found it and only appends to the text; every
   * statement but an empty expression statement ends its last line.
   */
  lemma {:induction false} StmtKeepsIndent(w: WriterState, s: Stmt)
    requires StmtOut(w, s).Some?
    ensures StmtOut(w, s).value.indent == w.indent
    ensures w.text <= StmtOut(w, s).value.text
    ensures !(s.ExpressionStmt? && s.expression.EmptyExpr?) ==> StmtOut(w, s).value.tabsPending
    decreases StmtSize(s), 1
  {
    match s
    case BlockStmt(_) => BlockKeepsIndent(w, s);
    case IfStmt(_, _, _) => IfKeepsIndent(w, s);
    case WhileStmt(_, _) => WhileKeepsIndent(w, s);
    case DoWhileStmt(_, _) => DoWhileKeepsIndent(w, s);
    case LabelStmt(_) => LabelKeepsIndent(w, s);
    case _ => SimpleStmtKeepsIndent(w, s);
  }

  lemma PutExtends(w: WriterState, s: string)
    ensures w.text <= Put(w, s).text && w.text <= Line(w).text
  {
    assert Put(w, s).text == w.text + (Pending(w) + s);
    assert Line(w).text == w.text + (Pending(w) + "\n");
  }

  lemma ExprOutExtends(w: WriterState, e: Expr)
    requires ExprOut(Some(w), e).Some?
    ensures ExprOut(Some(w), e).value.indent == w.indent
    ensures w.text <= ExprOut(Some(w), e).value.text
  {
    PutExtends(w, ExprText(e).value);
  }

  lemma SimpleStmtKeepsIndent(w: WriterState, s: Stmt)
    requires s.NopStmt? || s.ExpressionStmt? || s.VariableDeclarationStmt? || s.GotoStmt?
      || s.ConditionalGotoStmt? || s.ReturnStmt?
    requires StmtOut(w, s).Some?
    ensures StmtOut(w, s).value.indent == w.indent
    ensures w.text <= StmtOut(w, s).value.text
    ensures !(s.ExpressionStmt? && s.expression.EmptyExpr?) ==> StmtOut(w, s).value.tabsPending
  {
    match s
    case NopStmt => PutExtends(w, "nop"); PutExtends(Put(w, "nop"), "");
    case ExpressionStmt(e) =>
      if !e.EmptyExpr? {
        ExprOutExtends(w, e);
        PutExtends(ExprOut(Some(w), e).value, "");
      }
    case VariableDeclarationStmt(baseType, dimensions, name, initializer) =>
      var w1 := Put(w, baseType + Brackets(dimensions) + " " + name + " = ");
      PutExtends(w, baseType + Brackets(dimensions) + " " + name + " = ");
      ExprOutExtends(w1, initializer);
      PutExtends(ExprOut(Some(w1), initializer).value, "");
    case GotoStmt(name) => PutExtends(w, "goto " + name); PutExtends(Put(w, "goto " + name), "");
    case ConditionalGotoStmt(name, c, jumpIfTrue) =>
      var prefix := "goto " + name + " " + (if jumpIfTrue then "if" else "unless") + " ";
      PutExtends(w, prefix);
      ExprOutExtends(Put(w, prefix), c);
      PutExtends(ExprOut(Some(Put(w, prefix)), c).value, "");
    case ReturnStmt(e) =>
      if e.None? {
        PutExtends(w, "return");
        PutExtends(Put(w, "return"), "");
      } else {
        PutExtends(w, "return ");
        ExprOutExtends(Put(w, "return "), e.value);
        PutExtends(ExprOut(Some(Put(w, "return ")), e.value).value, "");
      }
  }

  lemma LabelKeepsIndent(w: WriterState, s: Stmt)
    requires s.LabelStmt?
    ensures StmtOut(w, s).Some?
    ensures StmtOut(w, s).value.indent == w.indent
    ensures w.text <= StmtOut(w, s).value.text
    ensures StmtOut(w, s).value.tabsPending
  {
    var outdented := if w.indent > 0 then Indented(w, w.indent - 1) else w;
    PutExtends(outdented, s.name + ":");
    PutExtends(Put(outdented, s.name + ":"), "");
  }

  /** The head line of a conditional statement: `prefix`, the condition, `suffix`. */
  lemma HeadExtends(w: WriterState, prefix: string, c: Expr, suffix: string)
    requires LineOut(PutOut(ExprOut(Some(Put(w, prefix)), c), suffix)).Some?
    ensures LineOut(PutOut(ExprOut(Some(Put(w, prefix)), c), suffix)).value.indent == w.indent
    ensures w.text <= LineOut(PutOut(ExprOut(Some(Put(w, prefix)), c), suffix)).value.text
  {
    PutExtends(w, prefix);
    ExprOutExtends(Put(w, prefix), c);
    var w2 := ExprOut(Some(Put(w, prefix)), c).value;
    PutExtends(w2, suffix);
    PutExtends(Put(w2, suffix), "");
  }

  lemma {:induction false} BlockKeepsIndent(w: WriterState, s: Stmt)
    requires s.BlockStmt?
    requires StmtOut(w, s).Some?
    ensures StmtOut(w, s).value.indent == w.indent
    ensures w.text <= StmtOut(w, s).value.text
    ensures StmtOut(w, s).value.tabsPending
    decreases StmtSize(s), 0
  {
    var begun := Line(Put(w, "{"));
    PutExtends(w, "{");
    PutExtends(Put(w, "{"), "");
    var inner := Indented(begun, begun.indent + 1);
    StmtsKeepIndent(inner, s.statements);
    var after := Indented(StmtsOut(inner, s.statements).value, w.indent);
    PutExtends(after, "}");
    PutExtends(Put(after, "}"), "");
  }

  lemma {:induction false} IfKeepsIndent(w: WriterState, s: Stmt)
    requires s.IfStmt?
    requires StmtOut(w, s).Some?
    ensures StmtOut(w, s).value.indent == w.indent
    ensures w.text <= StmtOut(w, s).value.text
    ensures StmtOut(w, s).value.tabsPending
    decreases StmtSize(s), 0
  {
    HeadExtends(w, "if (", s.condition, ") {");
    var head := LineOut(PutOut(ExprOut(Some(Put(w, "if (")), s.condition), ") {")).value;
    NestedKeepsIndent(head, s.thenStmt);
    var closed := Put(NestedOut(head, s.thenStmt).value, "}");
    PutExtends(NestedOut(head, s.thenStmt).value, "}");
    if s.elseStmt.Some? {
      var elseHead := Line(Put(closed, " else {"));
      PutExtends(closed, " else {");
      PutExtends(Put(closed, " else {"), "");
      NestedKeepsIndent(elseHead, s.elseStmt.value);
      var elseOut := NestedOut(elseHead, s.elseStmt.value).value;
      PutExtends(elseOut, "}");
      PutExtends(Put(elseOut, "}"), "");
    } else {
      PutExtends(closed, "");
    }
  }

  lemma {:induction false} WhileKeepsIndent(w: WriterState, s: Stmt)
    requires s.WhileStmt?
    requires StmtOut(w, s).Some?
    ensures StmtOut(w, s).value.indent == w.indent
    ensures w.text <= StmtOut(w, s).value.text
    ensures StmtOut(w, s).value.tabsPending
    decreases StmtSize(s), 0
  {
    HeadExtends(w, "while (", s.condition, ") {");
    var head := LineOut(PutOut(ExprOut(Some(Put(w, "while (")), s.condition), ") {")).value;
    NestedKeepsIndent(head, s.body);
    var bodyOut := NestedOut(head, s.body).value;
    PutExtends(bodyOut, "}");
    PutExtends(Put(bodyOut, "}"), "");
  }

  lemma {:induction false} DoWhileKeepsIndent(w: WriterState, s: Stmt)
    requires s.DoWhileStmt?
    requires StmtOut(w, s).Some?
    ensures StmtOut(w, s).value.indent == w.indent
    ensures w.text <= StmtOut(w, s).value.text
    ensures StmtOut(w, s).value.tabsPending
    decreases StmtSize(s), 0
  {
    var begun := Line(Put(w, "do {"));
    PutExtends(w, "do {");
    PutExtends(Put(w, "do {"), "");
    NestedKeepsIndent(begun, s.body);
    HeadExtends(NestedOut(begun, s.body).value, "} while (", s.condition, ")");
  }

  lemma {:induction false} NestedKeepsIndent(w: WriterState, s: Stmt)
    requires NestedOut(w, s).Some?
    ensures NestedOut(w, s).value.indent == w.indent
    ensures w.text <= NestedOut(w, s).value.text
    decreases StmtSize(s), 2
  {
    if s.BlockStmt? {
      StmtKeepsIndent(w, s);
    } else {
      StmtKeepsIndent(Indented(w, w.indent + 1), s);
    }
  }

  lemma {:induction false} StmtsKeepIndent(w: WriterState, ss: seq<Stmt>)
    requires StmtsOut(w, ss).Some?
    ensures StmtsOut(w, ss).value.indent == w.indent
    ensures w.text <= StmtsOut(w, ss).value.text
    decreases StmtsSize(ss), 3
  {
    if ss != [] {
      StmtsKeepIndent(w, ss[..|ss| - 1]);
      StmtKeepsIndent(StmtsOut(w, ss[..|ss| - 1]).value, ss[|ss| - 1]);
    }
  }

  /** A nested statement other than a block is written exactly as it would be one level deeper. */
  lemma NestedIndentsOneLevel(w: WriterState, s: Stmt)
    requires !s.BlockStmt?
    requires StmtOut(w.(indent := w.indent + 1), s).Some?
    ensures NestedOut(w, s).Some?
    ensures NestedOut(w, s).value == StmtOut(w.(indent := w.indent + 1), s).value.(indent := w.indent)
  {
    StmtKeepsIndent(w.(indent := w.indent + 1), s);
  }

  /** A nested block is written at the current level: the block indents its own statements. */
  lemma NestedBlockNotIndented(w: WriterState, ss: seq<Stmt>)
    ensures NestedOut(w, BlockStmt(ss)) == StmtOut(w, BlockStmt(ss))
  {
  }

  /** A label at the start of an indented line is written one level out, and the indent is kept. */
  lemma LabelOneLevelOut(w: WriterState, name: string)
    requires w.tabsPending && w.indent > 0
    ensures StmtOut(w, LabelStmt(name)) == Some(WriterState(w.text + Tabs(w.indent - 1) + name + ":" + "\n", w.indent, true))
  {
    var outdented := Indented(w, w.indent - 1);
    var written := Line(Put(outdented, name + ":"));
    assert Put(outdented, name + ":").text == w.text + Tabs(w.indent - 1) + (name + ":");
    assert written.text == w.text + Tabs(w.indent - 1) + name + ":" + "\n";
  }

  /** A label at the outermost level stays there. */
  lemma LabelAtOutermostLevel(w: WriterState, name: string)
    requires w.indent == 0
    ensures StmtOut(w, LabelStmt(name)) == Some(Line(Put(w, name + ":")))
  {
  }

  // ---------------------------------------------------------------- statement writing

  /** `WriteTo` on a statement. */
  method WriteStatement(w: IndentedTextWriter, s: Stmt) returns (ok: bool)
    modifies w
    ensures ok <==> StmtOut(old(w.State()), s).Some?
    ensures ok ==> w.State() == StmtOut(old(w.State()), s).value
    decreases StmtSize(s), 3
  {
    match s
    case NopStmt =>
      w.Write("nop");
      w.WriteLine();
      ok := true;
    case BlockStmt(_) => ok := WriteBlockStatement(w, s);
    case ExpressionStmt(_) => ok := WriteExpressionStatement(w, s);
    case VariableDeclarationStmt(_, _, _, _) => ok := WriteVariableDeclarationStatement(w, s);
    case IfStmt(_, _, _) => ok := WriteIfStatement(w, s);
    case WhileStmt(_, _) => ok := WriteWhileStatement(w, s);
    case DoWhileStmt(_, _) => ok := WriteDoWhileStatement(w, s);
    case LabelStmt(_) => WriteLabelStatement(w, s); ok := true;
    case GotoStmt(name) =>
      w.Write("goto " + name);
      w.WriteLine();
      ok := true;
    case ConditionalGotoStmt(_, _, _) => ok := WriteConditionalGotoStatement(w, s);
    case ReturnStmt(_) => ok := WriteReturnStatement(w, s);
  }

  method WriteNestedStatement(w: IndentedTextWriter, s: Stmt) returns (ok: bool)
    modifies w
    ensures ok <==> NestedOut(old(w.State()), s).Some?
    ensures ok ==> w.State() == NestedOut(old(w.State()), s).value
    decreases StmtSize(s), 4
  {
    var needsIndentation := !s.BlockStmt?;
    if needsIndentation {
      w.SetIndent(w.indent + 1);
    }
    ok := WriteStatement(w, s);
    if needsIndentation {
      w.SetIndent(w.indent - 1);
    }
  }

  method WriteBlockStatement(w: IndentedTextWriter, s: Stmt) returns (ok: bool)
    requires s.BlockStmt?
    modifies w
    ensures ok <==> StmtOut(old(w.State()), s).Some?
    ensures ok ==> w.State() == StmtOut(old(w.State()), s).value
    decreases StmtSize(s), 2
  {
    var ss := s.statements;
    w.Write("{");
    w.WriteLine();
    w.SetIndent(w.indent + 1);
    ghost var start := w.State();
    var i := 0;
    while i < |ss|
      invariant 0 <= i <= |ss|
      invariant StmtsOut(start, ss[..i]).Some?
      invariant w.State() == StmtsOut(start, ss[..i]).value
    {
      StmtsSizeElement(ss, i);
      assert ss[..i + 1][..i] == ss[..i];
      var written := WriteStatement(w, ss[i]);
      if !written {
        StmtsOutStops(start, ss, i + 1);
        return false;
      }
      i := i + 1;
    }
    assert ss[..i] == ss;
    w.SetIndent(w.indent - 1);
    w.Write("}");
    w.WriteLine();
    ok := true;
  }

  method WriteExpressionStatement(w: IndentedTextWriter, s: Stmt) returns (ok: bool)
    requires s.ExpressionStmt?
    modifies w
    ensures ok <==> StmtOut(old(w.State()), s).Some?
    ensures ok ==> w.State() == StmtOut(old(w.State()), s).value
  {
    if s.expression.EmptyExpr? {
      return true;
    }
    ok := WriteExpression(w, s.expression);
    if ok {
      w.WriteLine();
    }
  }

  method WriteVariableDeclarationStatement(w: IndentedTextWriter, s: Stmt) returns (ok: bool)
    requires s.VariableDeclarationStmt?
    modifies w
    ensures ok <==> StmtOut(old(w.State()), s).Some?
    ensures ok ==> w.State() == StmtOut(old(w.State()), s).value
  {
    ghost var w0 := w.State();
    WriteType(w, s.baseType, s.dimensions);
    w.Write(" " + s.name + " = ");
    PutPut(w0, s.baseType + Brackets(s.dimensions), " " + s.name + " = ");
    assert s.baseType + Brackets(s.dimensions) + (" " + s.name + " = ")
      == s.baseType + Brackets(s.dimensions) + " " + s.name + " = ";
    ok := WriteExpression(w, s.initializer);
    if ok {
      w.WriteLine();
    }
  }

  /** Writes `prefix`, the condition, then `suffix` and a line break. */
  method WriteConditionLine(w: IndentedTextWriter, prefix: string, c: Expr, suffix: string) returns (ok: bool)
    modifies w
    ensures ok <==> ExprText(c).Some?
    ensures ok ==> w.State() == LineOut(PutOut(ExprOut(Some(Put(old(w.State()), prefix)), c), suffix)).value
  {
    w.Write(prefix);
    ok := WriteExpression(w, c);
    if ok {
      w.Write(suffix);
      w.WriteLine();
    }
  }

  method WriteIfStatement(w: IndentedTextWriter, s: Stmt) returns (ok: bool)
    requires s.IfStmt?
    modifies w
    ensures ok <==> StmtOut(old(w.State()), s).Some?
    ensures ok ==> w.State() == StmtOut(old(w.State()), s).value
    decreases StmtSize(s), 2
  {
    ok := WriteConditionLine(w, "if (", s.condition, ") {");
    if !ok { return; }
    ok := WriteNestedStatement(w, s.thenStmt);
    if !ok { return; }
    w.Write("}");
    if s.elseStmt.Some? {
      w.Write(" else {");
      w.WriteLine();
      ok := WriteNestedStatement(w, s.elseStmt.value);
      if !ok { return; }
      w.Write("}");
    }
    w.WriteLine();
  }

  method WriteWhileStatement(w: IndentedTextWriter, s: Stmt) returns (ok: bool)
    requires s.WhileStmt?
    modifies w
    ensures ok <==> StmtOut(old(w.State()), s).Some?
    ensures ok ==> w.State() == StmtOut(old(w.State()), s).value
    decreases StmtSize(s), 2
  {
    ok := WriteConditionLine(w, "while (", s.condition, ") {");
    if !ok { return; }
    ok := WriteNestedStatement(w, s.body);
    if !ok { return; }
    w.Write("}");
    w.WriteLine();
  }

  method WriteDoWhileStatement(w: IndentedTextWriter, s: Stmt) returns (ok: bool)
    requires s.DoWhileStmt?
    modifies w
    ensures ok <==> StmtOut(old(w.State()), s).Some?
    ensures ok ==> w.State() == StmtOut(old(w.State()), s).value
    decreases StmtSize(s), 2
  {
    w.Write("do {");
    w.WriteLine();
    ok := WriteNestedStatement(w, s.body);
    if !ok { return; }
    ok := WriteConditionLine(w, "} while (", s.condition, ")");
  }

  method WriteLabelStatement(w: IndentedTextWriter, s: Stmt)
    requires s.LabelStmt?
    modifies w
    ensures StmtOut(old(w.State()), s).Some?
    ensures w.State() == StmtOut(old(w.State()), s).value
  {
    var unindent := w.indent > 0;
    if unindent {
      w.SetIndent(w.indent - 1);
    }
    w.Write(s.name + ":");
    w.WriteLine();
    if unindent {
      w.SetIndent(w.indent + 1);
    }
  }

  method WriteConditionalGotoStatement(w: IndentedTextWriter, s: Stmt) returns (ok: bool)
    requires s.ConditionalGotoStmt?
    modifies w
    ensures ok <==> StmtOut(old(w.State()), s).Some?
    ensures ok ==> w.State() == StmtOut(old(w.State()), s).value
  {
    w.Write("goto " + s.name + " " + (if s.jumpIfTrue then "if" else "unless") + " ");
    ok := WriteExpression(w, s.condition);
    if ok {
      w.WriteLine();
    }
  }

  method WriteReturnStatement(w: IndentedTextWriter, s: Stmt) returns (ok: bool)
    requires s.ReturnStmt?
    modifies w
    ensures ok <==> StmtOut(old(w.State()), s).Some?
    ensures ok ==> w.State() == StmtOut(old(w.State()), s).value
  {
    ghost var w0 := w.State();
    w.Write("return");
    if s.returned.Some? {
      w.Write(" ");
      PutPut(w0, "return", " ");
      ok := WriteExpression(w, s.returned.value);
      if !ok { return; }
    }
    w.WriteLine();
    ok := true;
  }
}
