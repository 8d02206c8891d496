/**
 * The bound tree the rewriter, the expander, the lowerer and the evaluator work on
 * (Binding/BoundTree): the expressions and statements the binder produces, with labels
 * identified by their names. Node kinds that only object-oriented code produces (member
 * access, object creation, `this`, `typeof`, references, try statements) are not part of
 * this model.
 */
module BoundTree {
  import opened Wrappers
  import opened BoundTypes

  datatype BinaryOperator =
    | Addition | Subtraction | Multiplication | Division | Modulo | Power
    | LogicalAnd | LogicalOr | LogicalXor | LeftShift | RightShift | UnsignedRightShift
    | ConditionalAnd | ConditionalOr | EqualityEquals | EqualityNotEquals
    | LessThan | GreaterThan | LessOrEqual | GreatOrEqual | NullCoalescing

  datatype UnaryOperator = NumericalIdentity | NumericalNegation | BooleanNegation | BitwiseCompliment

  datatype Expr =
    | Literal(value: LiteralValue)
      /** An expression the binder folded to a constant value. */
    | Constant(expression: Expr, value: LiteralValue)
    | Variable(name: string)
    | Assignment(left: Expr, right: Expr)
    | CompoundAssignment(left: Expr, op: BinaryOperator, right: Expr)
    | Unary(uop: UnaryOperator, operand: Expr)
    | Binary(left: Expr, op: BinaryOperator, right: Expr)
      /** `left ? center : right`. */
    | Ternary(left: Expr, center: Expr, right: Expr)
    | Call(callee: string, arguments: seq<Expr>)
    | Cast(target: BoundType, operand: Expr)
    | Index(operand: Expr, index: Expr)
    | Prefix(isIncrement: bool, operand: Expr)
    | Postfix(operand: Expr, isIncrement: bool, isOwnStatement: bool)
    | Empty

  datatype Stmt =
    | Nop
    | Block(statements: seq<Stmt>)
    | LocalDeclaration(name: string, initializer: Expr)
    | If(condition: Expr, thenStatement: Stmt, elseStatement: Option<Stmt>)
    | While(condition: Expr, body: Stmt, breakLabel: string, continueLabel: string)
    | DoWhile(body: Stmt, condition: Expr, breakLabel: string, continueLabel: string)
    | For(forInitializer: Stmt, condition: Expr, step: Expr, body: Stmt, breakLabel: string, continueLabel: string)
    | ExpressionStatement(expression: Expr)
    | Label(name: string)
    | Goto(name: string)
      /** Jumps to the label when the condition's value is `jumpIfTrue`. */
    | ConditionalGoto(name: string, condition: Expr, jumpIfTrue: bool)
    | Return(returned: Option<Expr>)
    | Break
    | Continue

  /** A size that shrinks towards every sub-expression, used for termination. */
  function ExprSize(e: Expr): nat
  {
    match e
    case Literal(_) => 1
    case Constant(x, _) => 1 + ExprSize(x)
    case Variable(_) => 1
    case Assignment(l, r) => 1 + ExprSize(l) + ExprSize(r)
    case CompoundAssignment(l, _, r) => 1 + ExprSize(l) + ExprSize(r)
    case Unary(_, x) => 1 + ExprSize(x)
    case Binary(l, _, r) => 1 + ExprSize(l) + ExprSize(r)
    case Ternary(l, c, r) => 1 + ExprSize(l) + ExprSize(c) + ExprSize(r)
    case Call(_, args) => 1 + ExprsSize(args)
    case Cast(_, x) => 1 + ExprSize(x)
    case Index(x, i) => 1 + ExprSize(x) + ExprSize(i)
    case Prefix(_, x) => 1 + ExprSize(x)
    case Postfix(x, _, _) => 1 + ExprSize(x)
    case Empty => 1
  }

  function ExprsSize(es: seq<Expr>): nat
  {
    if es == [] then 0 else ExprsSize(es[..|es| - 1]) + ExprSize(es[|es| - 1])
  }

  /** Every element of a list is smaller than the list. */
  lemma {:induction false} ExprsSizeElement(es: seq<Expr>, i: int)
    requires 0 <= i < |es|
    ensures ExprSize(es[i]) <= ExprsSize(es)
    decreases |es|
  {
    if i < |es| - 1 {
      ExprsSizeElement(es[..|es| - 1], i);
    }
  }

  /**
   * A size that shrinks towards every sub-statement. Structured statements weigh more
   * than the goto-and-label blocks they lower to, so lowering can recurse on those blocks.
   */
  function StmtSize(s: Stmt): nat
  {
    match s
    case Block(ss) => 1 + StmtsSize(ss)
    case If(_, t, e) => 4 + StmtSize(t) + (if e.Some? then 4 + StmtSize(e.value) else 0)
    case While(_, b, _, _) => 6 + StmtSize(b)
    case DoWhile(b, _, _, _) => 5 + StmtSize(b)
    case For(i, _, _, b, _, _) => 12 + StmtSize(i) + StmtSize(b)
    case _ => 1
  }

  function StmtsSize(ss: seq<Stmt>): nat
  {
    if ss == [] then 0 else StmtsSize(ss[..|ss| - 1]) + StmtSize(ss[|ss| - 1])
  }

  lemma {:induction false} StmtsSizeElement(ss: seq<Stmt>, i: int)
    requires 0 <= i < |ss|
    ensures StmtSize(ss[i]) <= StmtsSize(ss)
    decreases |ss|
  {
    if i < |ss| - 1 {
      StmtsSizeElement(ss[..|ss| - 1], i);
    }
  }

  lemma {:induction false} StmtsSizeAppend(a: seq<Stmt>, b: seq<Stmt>)
    ensures StmtsSize(a + b) == StmtsSize(a) + StmtsSize(b)
    decreases |b|
  {
    if b == [] {
      assert a + b == a;
    } else {
      assert (a + b)[..|a + b| - 1] == a + b[..|b| - 1];
      StmtsSizeAppend(a, b[..|b| - 1]);
    }
  }

  /** Whether a statement is a label, a jump or a return, which is all lowering leaves. */
  predicate IsFlat(s: Stmt)
  {
    !s.Block? && !s.If? && !s.While? && !s.DoWhile? && !s.For?
  }
}
