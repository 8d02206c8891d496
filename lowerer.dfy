/**
 * The lowerer (Lowering/Lowerer.cs): a rewriter that replaces structured control flow by
 * labels and conditional jumps, compound assignments and increments by plain assignments,
 * and then flattens the method body into one block. The rewrite rules are pure tree
 * construction, modelled as functions that thread the label counter; the counter itself and
 * the flattening work on state, and are modelled as a class and a method with a loop.
 */
module Lowerer {
  import opened Wrappers
  import opened BoundTypes
  import opened BoundTree
  import opened Strings
  import opened BoundTreeExpander

  /** The name of the `count`-th generated label. */
  function LabelName(count: nat): string
  {
    "Label" + NatToString(count)
  }

  /** Generated label names never repeat. */
  lemma LabelNameInjective(a: nat, b: nat)
    ensures LabelName(a) == LabelName(b) ==> a == b
  {
    if LabelName(a) == LabelName(b) {
      assert NatToString(a) == LabelName(a)[5..];
      assert NatToString(b) == LabelName(b)[5..];
      NatToStringInjective(a, b);
    }
  }

  /** The label counter of a lowerer. */
  class LabelGenerator {
    var labelCount: nat

    constructor()
      ensures labelCount == 0
    {
      labelCount := 0;
    }

    /** `GenerateLabel`: counts up first, so labels are named `Label1`, `Label2`, and so on. */
    method GenerateLabel() returns (name: string)
      modifies this
      ensures labelCount == old(labelCount) + 1
      ensures name == LabelName(labelCount)
    {
      labelCount := labelCount + 1;
      name := LabelName(labelCount);
    }
  }

  /** `x += 1` or `x -= 1`, lowered to a plain assignment. */
  function Step(x: Expr, isIncrement: bool): Expr
  {
    Assignment(x, Binary(x, if isIncrement then Addition else Subtraction, Literal(IntValue(1))))
  }

  /** `HasValue(left) ? Value(left) : right`, the `NullConditional` that `left ?? right` becomes. */
  function NullCoalesced(left: Expr, right: Expr): Expr
  {
    Ternary(Call("HasValue", [left]), Call("Value", [left]), right)
  }

  /** A binary node over operands already lowered: `??` becomes its null conditional. */
  function LowerBinary(left: Expr, op: BinaryOperator, right: Expr): Expr
  {
    if op == NullCoalescing then NullCoalesced(left, right) else Binary(left, op, right)
  }

  /**
   * The lowerer's `RewriteExpression`. A constant becomes a literal, unary `+` disappears and
   * `l ?? r` becomes `HasValue(l) ? Value(l) : r` in both modes; outside transpiler mode a
   * compound assignment `l op= r` becomes `l = l op r` (lowered again, so `??=` loses its
   * `??` too), `++x` becomes `x += 1`, and `x++` becomes `x += 1` as a statement of its own
   * and `(x += 1) - 1` otherwise (decrements symmetrically).
   */
  function LowerExpression(transpiler: bool, e: Expr): (r: Expr)
    ensures !transpiler ==> !r.CompoundAssignment? && !r.Prefix? && !r.Postfix?
    ensures !(r.Binary? && r.op == NullCoalescing)
    ensures !r.Constant? && !(r.Unary? && r.uop == NumericalIdentity)
    decreases ExprSize(e), 0, 0
  {
    match e
    case Literal(v) => Literal(v)
    case Constant(_, v) => Literal(v)
    case Variable(_) => e
    case Empty => e
    case Assignment(l, r) => Assignment(LowerExpression(transpiler, l), LowerExpression(transpiler, r))
    case CompoundAssignment(l, op, r) =>
      var left, right := LowerExpression(transpiler, l), LowerExpression(transpiler, r);
      if transpiler then CompoundAssignment(left, op, right) else Assignment(left, LowerBinary(left, op, right))
    case Unary(op, x) =>
      if op == NumericalIdentity then LowerExpression(transpiler, x) else Unary(op, LowerExpression(transpiler, x))
    case Binary(l, op, r) => LowerBinary(LowerExpression(transpiler, l), op, LowerExpression(transpiler, r))
    case Ternary(l, c, r) =>
      Ternary(LowerExpression(transpiler, l), LowerExpression(transpiler, c), LowerExpression(transpiler, r))
    case Call(name, args) => Call(name, LowerArguments(transpiler, args))
    case Cast(t, x) => Cast(t, LowerExpression(transpiler, x))
    case Index(x, i) => Index(x, LowerExpression(transpiler, i))
    case Prefix(inc, x) =>
      var operand := LowerExpression(transpiler, x);
      if transpiler then Prefix(inc, operand) else Step(operand, inc)
    case Postfix(x, inc, own) =>
      var operand := LowerExpression(transpiler, x);
      if transpiler then Postfix(operand, inc, own)
      else if own then Step(operand, inc)
      else Binary(Step(operand, inc), if inc then Subtraction else Addition, Literal(IntValue(1)))
  }

  function LowerArguments(transpiler: bool, args: seq<Expr>): (r: seq<Expr>)
    ensures |r| == |args|
    decreases ExprsSize(args), 1, |args|
  {
    if args == [] then []
    else LowerArguments(transpiler, args[..|args| - 1]) + [LowerExpression(transpiler, args[|args| - 1])]
  }

  /**
   * Lowering an expression twice gives what lowering it once gave. The source rewrites a
   * call's arguments once in its own loop and once more in the base rewriter; this is why
   * the model rewrites them once.
   */
  lemma {:induction false} LowerExpressionIdempotent(transpiler: bool, e: Expr)
    ensures LowerExpression(transpiler, LowerExpression(transpiler, e)) == LowerExpression(transpiler, e)
    decreases ExprSize(e), 0, 1
  {
    match e
    case Literal(_) =>
    case Constant(_, _) =>
    case Variable(_) =>
    case Empty =>
    case Unary(_, x) => LowerExpressionIdempotent(transpiler, x);
    case Call(_, args) => LowerArgumentsIdempotent(transpiler, args);
    case Cast(_, x) => LowerExpressionIdempotent(transpiler, x);
    case Index(_, i) => LowerExpressionIdempotent(transpiler, i);
    case Prefix(_, x) =>
      LowerExpressionIdempotent(transpiler, x);
      IncrementIdempotent(transpiler, e);
    case Postfix(x, _, _) =>
      LowerExpressionIdempotent(transpiler, x);
      IncrementIdempotent(transpiler, e);
    case _ => OperatorIdempotent(transpiler, e);
  }

  /** The cases of `LowerExpressionIdempotent` with two or three operands. */
  lemma {:induction false} OperatorIdempotent(transpiler: bool, e: Expr)
    requires e.Assignment? || e.CompoundAssignment? || e.Binary? || e.Ternary?
    ensures LowerExpression(transpiler, LowerExpression(transpiler, e)) == LowerExpression(transpiler, e)
    decreases ExprSize(e), 0, 0
  {
    match e
    case Assignment(l, r) => LowerExpressionIdempotent(transpiler, l); LowerExpressionIdempotent(transpiler, r);
    case CompoundAssignment(l, op, r) =>
      LowerExpressionIdempotent(transpiler, l); LowerExpressionIdempotent(transpiler, r);
      LowerBinaryIdempotent(transpiler, LowerExpression(transpiler, l), op, LowerExpression(transpiler, r));
    case Binary(l, op, r) =>
      LowerExpressionIdempotent(transpiler, l); LowerExpressionIdempotent(transpiler, r);
      LowerBinaryIdempotent(transpiler, LowerExpression(transpiler, l), op, LowerExpression(transpiler, r));
    case Ternary(l, c, r) =>
      LowerExpressionIdempotent(transpiler, l); LowerExpressionIdempotent(transpiler, c);
      LowerExpressionIdempotent(transpiler, r);
  }

  /** A binary node built over lowered operands is already lowered, `??` included. */
  lemma LowerBinaryIdempotent(transpiler: bool, left: Expr, op: BinaryOperator, right: Expr)
    requires LowerExpression(transpiler, left) == left
    requires LowerExpression(transpiler, right) == right
    ensures LowerExpression(transpiler, LowerBinary(left, op, right)) == LowerBinary(left, op, right)
  {
    if op == NullCoalescing {
      assert LowerArguments(transpiler, [left]) == [left] by {
        assert [left][..0] == [];
      }
    }
  }

  lemma IncrementIdempotent(transpiler: bool, e: Expr)
    requires e.Prefix? || e.Postfix?
    requires LowerExpression(transpiler, LowerExpression(transpiler, e.operand)) == LowerExpression(transpiler, e.operand)
    ensures LowerExpression(transpiler, LowerExpression(transpiler, e)) == LowerExpression(transpiler, e)
  {
    var operand := LowerExpression(transpiler, e.operand);
    if !transpiler {
      LowerStep(operand, e.isIncrement);
      if e.Postfix? && !e.isOwnStatement {
        var op := if e.isIncrement then Subtraction else Addition;
        assert LowerExpression(false, e) == Binary(Step(operand, e.isIncrement), op, Literal(IntValue(1)));
      }
    }
  }

  lemma LowerStep(x: Expr, isIncrement: bool)
    ensures LowerExpression(false, Step(x, isIncrement)) == Step(LowerExpression(false, x), isIncrement)
  {
    var op := if isIncrement then Addition else Subtraction;
    assert LowerExpression(false, Binary(x, op, Literal(IntValue(1))))
      == Binary(LowerExpression(false, x), op, Literal(IntValue(1)));
  }

  lemma {:induction false} LowerArgumentsIdempotent(transpiler: bool, args: seq<Expr>)
    ensures LowerArguments(transpiler, LowerArguments(transpiler, args)) == LowerArguments(transpiler, args)
    decreases ExprsSize(args), 1, |args|
  {
    if args != [] {
      var front, last := args[..|args| - 1], args[|args| - 1];
      var once := LowerArguments(transpiler, args);
      LowerArgumentsIdempotent(transpiler, front);
      LowerExpressionIdempotent(transpiler, last);
      assert once[..|once| - 1] == LowerArguments(transpiler, front);
    }
  }

  /**
   * Whether a `??` occurs where the rewriter visits: everywhere but the operand of an index
   * expression, which the base rewriter hands back untouched.
   */
  predicate Coalesces(e: Expr)
    decreases ExprSize(e), 0, 0
  {
    match e
    case Constant(x, _) => Coalesces(x)
    case Assignment(l, r) => Coalesces(l) || Coalesces(r)
    case CompoundAssignment(l, _, r) => Coalesces(l) || Coalesces(r)
    case Unary(_, x) => Coalesces(x)
    case Binary(l, op, r) => op == NullCoalescing || Coalesces(l) || Coalesces(r)
    case Ternary(l, c, r) => Coalesces(l) || Coalesces(c) || Coalesces(r)
    case Call(_, args) => ArgumentsCoalesce(args)
    case Cast(_, x) => Coalesces(x)
    case Index(_, i) => Coalesces(i)
    case Prefix(_, x) => Coalesces(x)
    case Postfix(x, _, _) => Coalesces(x)
    case _ => false
  }

  predicate ArgumentsCoalesce(args: seq<Expr>)
    decreases ExprsSize(args), 1, |args|
  {
    args != [] && (ArgumentsCoalesce(args[..|args| - 1]) || Coalesces(args[|args| - 1]))
  }

  /** A binary node over operands without `??` has none once built, `??` itself included. */
  lemma LowerBinaryRemovesCoalescing(left: Expr, op: BinaryOperator, right: Expr)
    requires !Coalesces(left) && !Coalesces(right)
    ensures !Coalesces(LowerBinary(left, op, right))
  {
    if op == NullCoalescing {
      assert [left][..0] == [];
      assert !ArgumentsCoalesce([left]);
    }
  }

  lemma StepHasNoCoalescing(x: Expr, isIncrement: bool)
    requires !Coalesces(x)
    ensures !Coalesces(Step(x, isIncrement))
  {
    assert !Coalesces(Binary(x, if isIncrement then Addition else Subtraction, Literal(IntValue(1))));
  }

  /** No `??` is left where the rewriter visits, in either mode. */
  lemma {:induction false} LowerRemovesCoalescing(transpiler: bool, e: Expr)
    ensures !Coalesces(LowerExpression(transpiler, e))
    decreases ExprSize(e), 0, 1
  {
    match e
    case Literal(_) =>
    case Constant(_, _) =>
    case Variable(_) =>
    case Empty =>
    case Assignment(l, r) => LowerRemovesCoalescing(transpiler, l); LowerRemovesCoalescing(transpiler, r);
    case CompoundAssignment(l, op, r) =>
      LowerRemovesCoalescing(transpiler, l); LowerRemovesCoalescing(transpiler, r);
      LowerBinaryRemovesCoalescing(LowerExpression(transpiler, l), op, LowerExpression(transpiler, r));
    case Unary(_, x) => LowerRemovesCoalescing(transpiler, x);
    case Binary(l, op, r) =>
      LowerRemovesCoalescing(transpiler, l); LowerRemovesCoalescing(transpiler, r);
      LowerBinaryRemovesCoalescing(LowerExpression(transpiler, l), op, LowerExpression(transpiler, r));
    case Ternary(l, c, r) =>
      LowerRemovesCoalescing(transpiler, l); LowerRemovesCoalescing(transpiler, c);
      LowerRemovesCoalescing(transpiler, r);
    case Call(_, args) => LowerArgumentsRemoveCoalescing(transpiler, args);
    case Cast(_, x) => LowerRemovesCoalescing(transpiler, x);
    case Index(_, i) => LowerRemovesCoalescing(transpiler, i);
    case Prefix(inc, x) =>
      LowerRemovesCoalescing(transpiler, x);
      StepHasNoCoalescing(LowerExpression(transpiler, x), inc);
    case Postfix(x, inc, _) =>
      LowerRemovesCoalescing(transpiler, x);
      StepHasNoCoalescing(LowerExpression(transpiler, x), inc);
      var step := Step(LowerExpression(transpiler, x), inc);
      assert !Coalesces(Binary(step, if inc then Subtraction else Addition, Literal(IntValue(1))));
  }

  lemma {:induction false} LowerArgumentsRemoveCoalescing(transpiler: bool, args: seq<Expr>)
    ensures !ArgumentsCoalesce(LowerArguments(transpiler, args))
    decreases ExprsSize(args), 1, |args|
  {
    if args != [] {
      var once := LowerArguments(transpiler, args);
      LowerArgumentsRemoveCoalescing(transpiler, args[..|args| - 1]);
      LowerRemovesCoalescing(transpiler, args[|args| - 1]);
      assert once[..|once| - 1] == LowerArguments(transpiler, args[..|args| - 1]);
    }
  }

  datatype Lowered = Lowered(statement: Stmt, labelCount: nat)
  datatype LoweredList = LoweredList(statements: seq<Stmt>, labelCount: nat)

  /** Whether two statements are of the same node kind. */
  predicate SameKind(a: Stmt, b: Stmt)
  {
    match a
    case Nop => b.Nop?
    case Block(ss) => b.Block? && |b.statements| == |ss|
    case LocalDeclaration(_, _) => b.LocalDeclaration?
    case If(_, _, e) => b.If? && b.elseStatement.Some? == e.Some?
    case While(_, _, _, _) => b.While?
    case DoWhile(_, _, _, _) => b.DoWhile?
    case For(_, _, _, _, _, _) => b.For?
    case ExpressionStatement(_) => b.ExpressionStatement?
    case Label(_) => b.Label?
    case Goto(_) => b.Goto?
    case ConditionalGoto(_, _, _) => b.ConditionalGoto?
    case Return(_) => b.Return?
    case Break => b.Break?
    case Continue => b.Continue?
  }

  /**
   * The lowerer's `RewriteStatement`, from label counter `count`. Outside transpiler mode:
   *   if c t           -> gotoFalse c end; t; end:
   *   if c t else e    -> gotoFalse c else; t; goto end; else:; e; end:
   *   while c b        -> continue:; gotoFalse c break; b; goto continue; break:
   *   do b while c     -> continue:; b; gotoTrue c continue; break:
   *   for (i; c; s) b  -> { i; while c { b; continue:; s; } } with a fresh label as the
   *                       while's continue label, and `true` for a missing condition.
   * Labels are generated before the parts are lowered. In transpiler mode control flow is
   * kept and only the parts are lowered.
   */
  function Lower(transpiler: bool, s: Stmt, count: nat): (r: Lowered)
    ensures r.labelCount >= count
    ensures transpiler ==> r.labelCount == count && SameKind(s, r.statement)
    decreases StmtSize(s), 0, 0
  {
    match s
    case Block(ss) =>
      var x := LowerStatements(transpiler, ss, count);
      Lowered(Block(x.statements), x.labelCount)
    case LocalDeclaration(name, x) => Lowered(LocalDeclaration(name, LowerExpression(transpiler, x)), count)
    case If(c, t, e) =>
      var condition := LowerExpression(transpiler, c);
      if transpiler then
        var thenPart := Lower(transpiler, t, count);
        var elsePart := if e.Some? then Some(Lower(transpiler, e.value, thenPart.labelCount)) else None;
        Lowered(If(condition, thenPart.statement, if e.Some? then Some(elsePart.value.statement) else None),
                if e.Some? then elsePart.value.labelCount else thenPart.labelCount)
      else if e.None? then
        var endLabel := LabelName(count + 1);
        var thenPart := Lower(transpiler, t, count + 1);
        Lowered(Block([ConditionalGoto(endLabel, condition, false), thenPart.statement, Label(endLabel)]),
                thenPart.labelCount)
      else
        var elseLabel, endLabel := LabelName(count + 1), LabelName(count + 2);
        var thenPart := Lower(transpiler, t, count + 2);
        var elsePart := Lower(transpiler, e.value, thenPart.labelCount);
        Lowered(Block([ConditionalGoto(elseLabel, condition, false), thenPart.statement, Goto(endLabel),
                       Label(elseLabel), elsePart.statement, Label(endLabel)]),
                elsePart.labelCount)
    case While(c, b, brk, cont) =>
      var condition := LowerExpression(transpiler, c);
      var body := Lower(transpiler, b, count);
      if transpiler then Lowered(While(condition, body.statement, brk, cont), body.labelCount)
      else Lowered(Block([Label(cont), ConditionalGoto(brk, condition, false), body.statement, Goto(cont), Label(brk)]),
                   body.labelCount)
    case DoWhile(b, c, brk, cont) =>
      var body := Lower(transpiler, b, count);
      var condition := LowerExpression(transpiler, c);
      if transpiler then Lowered(DoWhile(body.statement, condition, brk, cont), body.labelCount)
      else Lowered(Block([Label(cont), body.statement, ConditionalGoto(cont, condition, true), Label(brk)]),
                   body.labelCount)
    case For(i, c, st, b, brk, cont) =>
      if transpiler then
        var condition := LowerExpression(transpiler, c);
        var init := Lower(transpiler, i, count);
        var step := LowerExpression(transpiler, st);
        var body := Lower(transpiler, b, init.labelCount);
        Lowered(For(init.statement, condition, step, body.statement, brk, cont), body.labelCount)
      else
        var whileContinue := LabelName(count + 1);
        var condition := LowerExpression(transpiler, if c.Empty? then Literal(BoolValue(true)) else c);
        var init := Lower(transpiler, i, count + 1);
        var body := Lower(transpiler, b, init.labelCount);
        var loop := Block([Label(whileContinue), ConditionalGoto(brk, condition, false),
                           Block([body.statement, Label(cont), ExpressionStatement(LowerExpression(transpiler, st))]),
                           Goto(whileContinue), Label(brk)]);
        Lowered(Block([init.statement, loop]), body.labelCount)
    case ExpressionStatement(x) => Lowered(ExpressionStatement(LowerExpression(transpiler, x)), count)
    case ConditionalGoto(name, c, jump) => Lowered(ConditionalGoto(name, LowerExpression(transpiler, c), jump), count)
    case Return(x) =>
      Lowered(Return(if x.Some? then Some(LowerExpression(transpiler, x.value)) else None), count)
    case _ => Lowered(s, count)
  }

  /** The statements of a block lowered left to right, the counter threaded through. */
  function LowerStatements(transpiler: bool, ss: seq<Stmt>, count: nat): (r: LoweredList)
    ensures |r.statements| == |ss|
    ensures r.labelCount >= count
    ensures transpiler ==> r.labelCount == count
    decreases StmtsSize(ss), 1, |ss|
  {
    if ss == [] then LoweredList([], count)
    else
      var front := LowerStatements(transpiler, ss[..|ss| - 1], count);
      var last := Lower(transpiler, ss[|ss| - 1], front.labelCount);
      LoweredList(front.statements + [last.statement], last.labelCount)
  }

  /** How many labels lowering a statement generates: one per `if` without else, two per `if` with else, one per `for`. */
  function LabelsNeeded(s: Stmt): nat
    decreases StmtSize(s), 0, 0
  {
    match s
    case Block(ss) => LabelsNeededAll(ss)
    case If(_, t, e) => (if e.Some? then 2 + LabelsNeeded(e.value) else 1) + LabelsNeeded(t)
    case While(_, b, _, _) => LabelsNeeded(b)
    case DoWhile(b, _, _, _) => LabelsNeeded(b)
    case For(i, _, _, b, _, _) => 1 + LabelsNeeded(i) + LabelsNeeded(b)
    case _ => 0
  }

  function LabelsNeededAll(ss: seq<Stmt>): nat
    decreases StmtsSize(ss), 1, |ss|
  {
    if ss == [] then 0 else LabelsNeededAll(ss[..|ss| - 1]) + LabelsNeeded(ss[|ss| - 1])
  }

  /** Outside transpiler mode the counter advances by exactly the labels the statement needs. */
  lemma {:induction false} LowerCountsLabels(s: Stmt, count: nat)
    ensures Lower(false, s, count).labelCount == count + LabelsNeeded(s)
    decreases StmtSize(s), 0, 0
  {
    match s
    case Block(ss) => LowerStatementsCountsLabels(ss, count);
    case If(_, t, e) =>
      if e.None? {
        LowerCountsLabels(t, count + 1);
      } else {
        LowerCountsLabels(t, count + 2);
        LowerCountsLabels(e.value, Lower(false, t, count + 2).labelCount);
      }
    case While(_, b, _, _) => LowerCountsLabels(b, count);
    case DoWhile(b, _, _, _) => LowerCountsLabels(b, count);
    case For(i, _, _, b, _, _) =>
      LowerCountsLabels(i, count + 1);
      LowerCountsLabels(b, Lower(false, i, count + 1).labelCount);
    case _ =>
  }

  lemma {:induction false} LowerStatementsCountsLabels(ss: seq<Stmt>, count: nat)
    ensures LowerStatements(false, ss, count).labelCount == count + LabelsNeededAll(ss)
    decreases StmtsSize(ss), 1, |ss|
  {
    if ss != [] {
      var front := ss[..|ss| - 1];
      LowerStatementsCountsLabels(front, count);
      LowerCountsLabels(ss[|ss| - 1], LowerStatements(false, front, count).labelCount);
    }
  }

  /** Whether a statement is made of blocks around flat statements only. */
  predicate Unstructured(s: Stmt)
    decreases StmtSize(s), 0, 0
  {
    match s
    case Block(ss) => AllUnstructured(ss)
    case _ => IsFlat(s)
  }

  predicate AllUnstructured(ss: seq<Stmt>)
    decreases StmtsSize(ss), 1, |ss|
  {
    ss == [] || (AllUnstructured(ss[..|ss| - 1]) && Unstructured(ss[|ss| - 1]))
  }

  /** Outside transpiler mode no `if`, `while`, `do` or `for` survives lowering. */
  lemma {:induction false} LowerRemovesControlFlow(s: Stmt, count: nat)
    ensures Unstructured(Lower(false, s, count).statement)
    decreases StmtSize(s), 0, 0
  {
    var r := Lower(false, s, count).statement;
    match s
    case Block(ss) => LowerStatementsRemoveControlFlow(ss, count);
    case If(_, t, e) =>
      if e.None? {
        LowerRemovesControlFlow(t, count + 1);
        AllUnstructuredThree(r.statements);
      } else {
        LowerRemovesControlFlow(t, count + 2);
        LowerRemovesControlFlow(e.value, Lower(false, t, count + 2).labelCount);
        IfElseUnstructured(s, count);
      }
    case While(_, b, _, _) =>
      LowerRemovesControlFlow(b, count);
      AllUnstructuredFive(r.statements);
    case DoWhile(b, _, _, _) =>
      LowerRemovesControlFlow(b, count);
      AllUnstructuredFour(r.statements);
    case For(i, _, _, b, _, _) =>
      LowerRemovesControlFlow(i, count + 1);
      LowerRemovesControlFlow(b, Lower(false, i, count + 1).labelCount);
      ForUnstructured(s, count);
    case _ =>
  }

  lemma IfElseUnstructured(s: Stmt, count: nat)
    requires s.If? && s.elseStatement.Some?
    requires Unstructured(Lower(false, s.thenStatement, count + 2).statement)
    requires Unstructured(Lower(false, s.elseStatement.value, Lower(false, s.thenStatement, count + 2).labelCount).statement)
    ensures Unstructured(Lower(false, s, count).statement)
  {
    AllUnstructuredSix(Lower(false, s, count).statement.statements);
  }

  lemma ForUnstructured(s: Stmt, count: nat)
    requires s.For?
    requires Unstructured(Lower(false, s.forInitializer, count + 1).statement)
    requires Unstructured(Lower(false, s.body, Lower(false, s.forInitializer, count + 1).labelCount).statement)
    ensures Unstructured(Lower(false, s, count).statement)
  {
    var r := Lower(false, s, count).statement;
    var loop := r.statements[1];
    AllUnstructuredThree(loop.statements[2].statements);
    AllUnstructuredFive(loop.statements);
    AllUnstructuredTwo(r.statements);
  }

  lemma {:induction false} LowerStatementsRemoveControlFlow(ss: seq<Stmt>, count: nat)
    ensures AllUnstructured(LowerStatements(false, ss, count).statements)
    decreases StmtsSize(ss), 1, |ss|
  {
    if ss != [] {
      var front := ss[..|ss| - 1];
      var r := LowerStatements(false, ss, count).statements;
      LowerStatementsRemoveControlFlow(front, count);
      LowerRemovesControlFlow(ss[|ss| - 1], LowerStatements(false, front, count).labelCount);
      assert r[..|r| - 1] == LowerStatements(false, front, count).statements;
    }
  }

  lemma AllUnstructuredTwo(ss: seq<Stmt>)
    requires |ss| == 2 && Unstructured(ss[0]) && Unstructured(ss[1])
    ensures AllUnstructured(ss)
  {
    assert ss[..1][..0] == [];
  }

  lemma AllUnstructuredThree(ss: seq<Stmt>)
    requires |ss| == 3 && forall i :: 0 <= i < 3 ==> Unstructured(ss[i])
    ensures AllUnstructured(ss)
  {
    AllUnstructuredTwo(ss[..2]);
  }

  lemma AllUnstructuredFour(ss: seq<Stmt>)
    requires |ss| == 4 && forall i :: 0 <= i < 4 ==> Unstructured(ss[i])
    ensures AllUnstructured(ss)
  {
    AllUnstructuredThree(ss[..3]);
  }

  lemma AllUnstructuredFive(ss: seq<Stmt>)
    requires |ss| == 5 && forall i :: 0 <= i < 5 ==> Unstructured(ss[i])
    ensures AllUnstructured(ss)
  {
    AllUnstructuredFour(ss[..4]);
  }

  lemma AllUnstructuredSix(ss: seq<Stmt>)
    requires |ss| == 6 && forall i :: 0 <= i < 6 ==> Unstructured(ss[i])
    ensures AllUnstructured(ss)
  {
    AllUnstructuredFive(ss[..5]);
  }

  /** The statements a body flattens to: blocks dissolved, everything else kept in order. */
  function Leaves(s: Stmt): seq<Stmt>
    decreases StmtSize(s), 0, 0
  {
    match s
    case Block(ss) => LeavesAll(ss)
    case _ => [s]
  }

  function LeavesAll(ss: seq<Stmt>): seq<Stmt>
    decreases StmtsSize(ss), 1, |ss|
  {
    if ss == [] then [] else LeavesAll(ss[..|ss| - 1]) + Leaves(ss[|ss| - 1])
  }

  lemma {:induction false} LeavesAllAppend(a: seq<Stmt>, b: seq<Stmt>)
    ensures LeavesAll(a + b) == LeavesAll(a) + LeavesAll(b)
    decreases |b|
  {
    if b == [] {
      assert a + b == a;
    } else {
      var front, last := b[..|b| - 1], b[|b| - 1];
      assert (a + b)[..|a + b| - 1] == a + front;
      assert (a + b)[|a + b| - 1] == last;
      LeavesAllAppend(a, front);
    }
  }

  /** No block survives flattening. */
  lemma {:induction false} LeavesHaveNoBlocks(s: Stmt)
    ensures forall x :: x in Leaves(s) ==> !x.Block?
    decreases StmtSize(s), 0, 0
  {
    if s.Block? {
      LeavesAllHaveNoBlocks(s.statements);
    }
  }

  lemma {:induction false} LeavesAllHaveNoBlocks(ss: seq<Stmt>)
    ensures forall x :: x in LeavesAll(ss) ==> !x.Block?
    decreases StmtsSize(ss), 1, |ss|
  {
    if ss != [] {
      LeavesAllHaveNoBlocks(ss[..|ss| - 1]);
      LeavesHaveNoBlocks(ss[|ss| - 1]);
    }
  }

  /** Flattening a statement without control flow leaves only flat statements. */
  lemma {:induction false} UnstructuredLeavesAreFlat(s: Stmt)
    requires Unstructured(s)
    ensures forall x :: x in Leaves(s) ==> IsFlat(x)
    decreases StmtSize(s), 0, 0
  {
    if s.Block? {
      UnstructuredAllLeavesAreFlat(s.statements);
    }
  }

  lemma {:induction false} UnstructuredAllLeavesAreFlat(ss: seq<Stmt>)
    requires AllUnstructured(ss)
    ensures forall x :: x in LeavesAll(ss) ==> IsFlat(x)
    decreases StmtsSize(ss), 1, |ss|
  {
    if ss != [] {
      UnstructuredAllLeavesAreFlat(ss[..|ss| - 1]);
      UnstructuredLeavesAreFlat(ss[|ss| - 1]);
    }
  }

  /** `Simplify` of the expander keeps what a list flattens to. */
  lemma SimplifyKeepsLeaves(ss: seq<Stmt>)
    ensures Leaves(Simplify(ss)) == LeavesAll(ss)
  {
    if |ss| == 1 {
      assert ss == [] + [ss[0]];
      assert ss[..0] == [];
    }
  }

  /** `CanFallThrough`: control may run past a statement unless it returns or jumps. */
  predicate CanFallThrough(s: Stmt)
  {
    !s.Return? && !s.Goto?
  }

  lemma {:induction false} StmtsSizeCons(x: Stmt, rest: seq<Stmt>)
    ensures StmtsSize([x] + rest) == StmtSize(x) + StmtsSize(rest)
  {
    StmtsSizeAppend([x], rest);
    assert [x][..0] == [];
  }

  lemma {:induction false} LeavesAllCons(x: Stmt, rest: seq<Stmt>)
    ensures LeavesAll([x] + rest) == Leaves(x) + LeavesAll(rest)
  {
    LeavesAllAppend([x], rest);
    assert [x][..0] == [];
  }

  /**
   * `Flatten`: pops statements off an explicit stack (its top at the front here), pushes a
   * block's statements so that the first comes out first, and collects everything else in
   * order. A method returning void then gets a trailing `return` when the body is empty or
   * its last statement can fall through.
   */
  method Flatten(returnsVoid: bool, statement: Stmt) returns (r: Stmt)
    ensures r.Block?
    ensures returnsVoid && (Leaves(statement) == [] || CanFallThrough(Leaves(statement)[|Leaves(statement)| - 1]))
      ==> r.statements == Leaves(statement) + [Return(None)]
    ensures !(returnsVoid && (Leaves(statement) == [] || CanFallThrough(Leaves(statement)[|Leaves(statement)| - 1])))
      ==> r.statements == Leaves(statement)
    ensures returnsVoid ==> r.statements != [] && !CanFallThrough(r.statements[|r.statements| - 1])
  {
    var builder := CollectLeaves(statement);
    if returnsVoid {
      if |builder| == 0 || CanFallThrough(builder[|builder| - 1]) {
        builder := builder + [Return(None)];
      }
    }
    r := Block(builder);
  }

  /** The stack loop of `Flatten`. */
  method CollectLeaves(statement: Stmt) returns (builder: seq<Stmt>)
    ensures builder == Leaves(statement)
  {
    builder := [];
    var stack := [statement];
    assert LeavesAll(stack) == Leaves(statement) by {
      LeavesAllCons(statement, []);
    }
    while stack != []
      invariant builder + LeavesAll(stack) == Leaves(statement)
      decreases StmtsSize(stack)
    {
      var current := stack[0];
      var rest := stack[1..];
      assert stack == [current] + rest;
      PopStep(current, rest);
      ghost var before := StmtsSize(stack);
      if current.Block? {
        stack := PushStatements(current.statements, rest);
        assert LeavesAll(stack) == LeavesAll([current] + rest);
      } else {
        AppendAssoc(builder, [current], LeavesAll(rest));
        builder := builder + [current];
        stack := rest;
      }
      assert StmtsSize(stack) < before;
    }
  }

  /**
   * One pop of the stack loop: a popped block is replaced by its statements, which flatten
   * to the same statements; anything else is collected. Either way the stack gets smaller.
   */
  lemma PopStep(current: Stmt, rest: seq<Stmt>)
    ensures current.Block? ==>
      (LeavesAll(current.statements + rest) == LeavesAll([current] + rest)
       && StmtsSize(current.statements + rest) < StmtsSize([current] + rest))
    ensures !current.Block? ==>
      ([current] + LeavesAll(rest) == LeavesAll([current] + rest)
       && StmtsSize(rest) < StmtsSize([current] + rest))
  {
    LeavesAllCons(current, rest);
    StmtsSizeCons(current, rest);
    if current.Block? {
      LeavesAllAppend(current.statements, rest);
      StmtsSizeAppend(current.statements, rest);
    }
  }

  lemma AppendAssoc(a: seq<Stmt>, b: seq<Stmt>, c: seq<Stmt>)
    ensures (a + b) + c == a + (b + c)
  {
  }

  /** Pushes a block's statements last to first, so that the first is on top. */
  method PushStatements(ss: seq<Stmt>, stack: seq<Stmt>) returns (r: seq<Stmt>)
    ensures r == ss + stack
  {
    r := stack;
    var k := |ss|;
    while k > 0
      invariant 0 <= k <= |ss|
      invariant r == ss[k..] + stack
    {
      k := k - 1;
      r := [ss[k]] + r;
      assert ss[k..] == [ss[k]] + ss[k + 1..];
    }
    assert ss[0..] == ss;
  }

  /**
   * `Lower` for a method body: expanded, lowered from a fresh label counter and flattened.
   * The expander here is the base one (its subclass is not part of this model), which
   * leaves the body as it is.
   */
  method LowerBody(returnsVoid: bool, transpiler: bool, body: Stmt) returns (r: Stmt)
    ensures r.Block?
    ensures forall x :: x in r.statements ==> !x.Block?
    ensures !transpiler ==> forall x :: x in r.statements ==> IsFlat(x)
    ensures returnsVoid ==> r.statements != [] && !CanFallThrough(r.statements[|r.statements| - 1])
  {
    var expanded := Simplify(ExpandStatement(NoHoist, body));
    BaseExpandStatement(body);
    var lowered := Lower(transpiler, expanded, 0).statement;
    r := Flatten(returnsVoid, lowered);
    LeavesHaveNoBlocks(lowered);
    if !transpiler {
      LowerRemovesControlFlow(expanded, 0);
      UnstructuredLeavesAreFlat(lowered);
    }
  }
}
