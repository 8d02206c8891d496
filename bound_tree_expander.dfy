/**
 * The base bound-tree expander (Binding/BoundTreeExpander.cs). Expanding a statement gives
 * the list of statements that replaces it; expanding an expression gives the statements to
 * run before it together with the expression that replaces it. The base class hoists
 * nothing; the subclasses that do are modelled by the `hoist` parameter, which is asked
 * first at every expression and, when it answers, decides that expression's expansion.
 */
module BoundTreeExpander {
  import opened Wrappers
  import opened BoundTypes
  import opened BoundTree

  datatype Expansion = Expansion(statements: seq<Stmt>, replacement: Expr)

  /** What a subclass hoists out of an expression, if anything. */
  type Hoist = Expr -> Option<Expansion>

  /** `Simplify`: the sole statement of a singleton list, otherwise a block of the list. */
  function Simplify(statements: seq<Stmt>): (r: Stmt)
    ensures |statements| == 1 ==> r == statements[0]
    ensures |statements| != 1 ==> r.Block? && r.statements == statements
  {
    if |statements| == 1 then statements[0] else Block(statements)
  }

  /** Whether two expressions are of the same node kind. */
  predicate SameExprKind(a: Expr, b: Expr)
  {
    match a
    case Literal(_) => b.Literal?
    case Constant(_, _) => b.Constant?
    case Variable(_) => b.Variable?
    case Assignment(_, _) => b.Assignment?
    case CompoundAssignment(_, op, _) => b.CompoundAssignment? && b.op == op
    case Unary(op, _) => b.Unary? && b.uop == op
    case Binary(_, op, _) => b.Binary? && b.op == op
    case Ternary(_, _, _) => b.Ternary?
    case Call(name, args) => b.Call? && b.callee == name && |b.arguments| == |args|
    case Cast(t, _) => b.Cast? && b.target == t
    case Index(_, _) => b.Index?
    case Prefix(inc, _) => b.Prefix? && b.isIncrement == inc
    case Postfix(_, inc, own) => b.Postfix? && b.isIncrement == inc && b.isOwnStatement == own
    case Empty => b.Empty?
  }

  /** Rebuilds a node from one expanded child, only when that child hoisted something. */
  function One(e: Expr, a: Expansion, make: Expr -> Expr): Expansion
  {
    if a.statements != [] then Expansion(a.statements, make(a.replacement)) else Expansion([], e)
  }

  /** Rebuilds a node from two expanded children, only when they hoisted something; left first. */
  function Two(e: Expr, a: Expansion, b: Expansion, make: (Expr, Expr) -> Expr): Expansion
  {
    if a.statements + b.statements != [] then
      Expansion(a.statements + b.statements, make(a.replacement, b.replacement))
    else Expansion([], e)
  }

  /**
   * `ExpandExpression`. Leaves hoist nothing and stand for themselves; a composite is
   * rebuilt from its children's replacements only when some child hoisted a statement, the
   * hoisted statements kept in evaluation order; a call is always rebuilt.
   */
  function ExpandExpression(hoist: Hoist, e: Expr): (r: Expansion)
    ensures hoist(e).None? && r.statements == [] && !e.Call? ==> r.replacement == e
    ensures hoist(e).None? ==> SameExprKind(e, r.replacement)
    decreases ExprSize(e), 0, 0
  {
    match hoist(e)
    case Some(x) => x
    case None =>
      match e
      case Literal(_) => Expansion([], e)
      case Constant(_, _) => Expansion([], e)
      case Variable(_) => Expansion([], e)
      case Empty => Expansion([], e)
      case Assignment(l, r) =>
        Two(e, ExpandExpression(hoist, l), ExpandExpression(hoist, r), (a, b) => Assignment(a, b))
      case CompoundAssignment(l, op, r) =>
        Two(e, ExpandExpression(hoist, l), ExpandExpression(hoist, r), (a, b) => CompoundAssignment(a, op, b))
      case Unary(op, x) => One(e, ExpandExpression(hoist, x), a => Unary(op, a))
      case Binary(l, op, r) =>
        Two(e, ExpandExpression(hoist, l), ExpandExpression(hoist, r), (a, b) => Binary(a, op, b))
      case Ternary(l, c, r) =>
        var a, b, d := ExpandExpression(hoist, l), ExpandExpression(hoist, c), ExpandExpression(hoist, r);
        var statements := a.statements + b.statements + d.statements;
        if statements != [] then Expansion(statements, Ternary(a.replacement, b.replacement, d.replacement))
        else Expansion([], e)
      case Call(name, args) =>
        var x := ExpandArguments(hoist, args);
        Expansion(x.statements, Call(name, x.replacements))
      case Cast(t, x) => One(e, ExpandExpression(hoist, x), a => Cast(t, a))
      case Index(x, i) =>
        Two(e, ExpandExpression(hoist, x), ExpandExpression(hoist, i), (a, b) => Index(a, b))
      case Prefix(inc, x) => One(e, ExpandExpression(hoist, x), a => Prefix(inc, a))
      case Postfix(x, inc, own) => One(e, ExpandExpression(hoist, x), a => Postfix(a, inc, own))
  }

  datatype ArgumentsExpansion = ArgumentsExpansion(statements: seq<Stmt>, replacements: seq<Expr>)

  /** The arguments of a call expanded left to right: hoisted statements in order, one replacement each. */
  function ExpandArguments(hoist: Hoist, args: seq<Expr>): (r: ArgumentsExpansion)
    ensures |r.replacements| == |args|
    decreases ExprsSize(args), 1, |args|
  {
    if args == [] then ArgumentsExpansion([], [])
    else
      var front := ExpandArguments(hoist, args[..|args| - 1]);
      var last := ExpandExpression(hoist, args[|args| - 1]);
      ArgumentsExpansion(front.statements + last.statements, front.replacements + [last.replacement])
  }

  /** `ExpandCallExpression`: the argument loop of the source, against `ExpandArguments`. */
  method ExpandCallExpression(hoist: Hoist, name: string, arguments: seq<Expr>)
    returns (statements: seq<Stmt>, replacement: Expr)
    ensures statements == ExpandArguments(hoist, arguments).statements
    ensures replacement == Call(name, ExpandArguments(hoist, arguments).replacements)
  {
    statements := [];
    var replacementArguments := [];
    var i := 0;
    while i < |arguments|
      invariant 0 <= i <= |arguments|
      invariant ArgumentsExpansion(statements, replacementArguments) == ExpandArguments(hoist, arguments[..i])
    {
      var x := ExpandExpression(hoist, arguments[i]);
      statements := statements + x.statements;
      replacementArguments := replacementArguments + [x.replacement];
      assert arguments[..i + 1][..i] == arguments[..i];
      i := i + 1;
    }
    assert arguments[..i] == arguments;
    replacement := Call(name, replacementArguments);
  }

  /** Whether two statements are of the same node kind. */
  predicate SameStmtKind(a: Stmt, b: Stmt)
  {
    match a
    case Nop => b.Nop?
    case Block(_) => b.Block?
    case LocalDeclaration(n, _) => b.LocalDeclaration? && b.name == n
    case If(_, _, e) => b.If? && b.elseStatement.Some? == e.Some?
    case While(_, _, brk, cont) => b.While? && b.breakLabel == brk && b.continueLabel == cont
    case DoWhile(_, _, brk, cont) => b.DoWhile? && b.breakLabel == brk && b.continueLabel == cont
    case For(_, _, _, _, _, _) => b == a
    case ExpressionStatement(_) => b.ExpressionStatement?
    case Label(_) => b == a
    case Goto(_) => b == a
    case ConditionalGoto(_, _, _) => b == a
    case Return(x) => b.Return? && b.returned.Some? == x.Some?
    case Break => b.Break?
    case Continue => b.Continue?
  }

  /** Hoisted statements first, then the statement rebuilt over the replacement; the statement itself when nothing was hoisted. */
  function Around(s: Stmt, x: Expansion, make: Expr -> Stmt): seq<Stmt>
  {
    if x.statements != [] then x.statements + [make(x.replacement)] else [s]
  }

  /**
   * `ExpandStatement`. The result is never empty and ends in a statement of the kind
   * expanded: everything before it was hoisted out of that statement's expressions.
   * For loops, labels and jumps are left as they are.
   */
  function ExpandStatement(hoist: Hoist, s: Stmt): (r: seq<Stmt>)
    ensures |r| >= 1 && SameStmtKind(s, r[|r| - 1])
    decreases StmtSize(s), 0, 0
  {
    match s
    case Block(ss) => [Block(ExpandStatements(hoist, ss))]
    case LocalDeclaration(name, x) =>
      Around(s, ExpandExpression(hoist, x), y => LocalDeclaration(name, y))
    case If(c, t, e) =>
      var x := ExpandExpression(hoist, c);
      x.statements + [If(x.replacement, Simplify(ExpandStatement(hoist, t)),
                        if e.Some? then Some(Simplify(ExpandStatement(hoist, e.value))) else None)]
    case While(c, b, brk, cont) =>
      var x := ExpandExpression(hoist, c);
      x.statements + [While(x.replacement, Simplify(ExpandStatement(hoist, b)), brk, cont)]
    case DoWhile(b, c, brk, cont) =>
      var x := ExpandExpression(hoist, c);
      x.statements + [DoWhile(Simplify(ExpandStatement(hoist, b)), x.replacement, brk, cont)]
    case ExpressionStatement(x) => Around(s, ExpandExpression(hoist, x), y => ExpressionStatement(y))
    case Return(x) =>
      if x.None? then [s] else Around(s, ExpandExpression(hoist, x.value), y => Return(Some(y)))
    case _ => [s]
  }

  /** The statements of a block expanded in order and concatenated. */
  function ExpandStatements(hoist: Hoist, ss: seq<Stmt>): (r: seq<Stmt>)
    ensures |r| >= |ss|
    decreases StmtsSize(ss), 1, |ss|
  {
    if ss == [] then []
    else ExpandStatements(hoist, ss[..|ss| - 1]) + ExpandStatement(hoist, ss[|ss| - 1])
  }

  /** `ExpandBlockStatement`: the child loop of the source, against `ExpandStatements`. */
  method ExpandBlockStatement(hoist: Hoist, statements: seq<Stmt>) returns (r: seq<Stmt>)
    ensures r == ExpandStatement(hoist, Block(statements))
    ensures |r| == 1 && r[0].Block? && |r[0].statements| >= |statements|
  {
    var expanded := [];
    var i := 0;
    while i < |statements|
      invariant 0 <= i <= |statements|
      invariant expanded == ExpandStatements(hoist, statements[..i])
    {
      expanded := expanded + ExpandStatement(hoist, statements[i]);
      assert statements[..i + 1][..i] == statements[..i];
      i := i + 1;
    }
    assert statements[..i] == statements;
    r := [Block(expanded)];
  }

  /** The hoist of the base class, which hoists nothing. */
  function NoHoist(e: Expr): Option<Expansion>
  {
    None
  }

  /** The base expander hands every expression back unchanged, with nothing hoisted. */
  lemma {:induction false} BaseExpandExpression(e: Expr)
    ensures ExpandExpression(NoHoist, e) == Expansion([], e)
    decreases ExprSize(e), 0, 0
  {
    match e
    case Literal(_) =>
    case Constant(_, _) =>
    case Variable(_) =>
    case Empty =>
    case Assignment(l, r) => BaseExpandExpression(l); BaseExpandExpression(r);
    case CompoundAssignment(l, _, r) => BaseExpandExpression(l); BaseExpandExpression(r);
    case Unary(_, x) => BaseExpandExpression(x);
    case Binary(l, _, r) => BaseExpandExpression(l); BaseExpandExpression(r);
    case Ternary(l, c, r) => BaseExpandExpression(l); BaseExpandExpression(c); BaseExpandExpression(r);
    case Call(_, args) => BaseExpandArguments(args);
    case Cast(_, x) => BaseExpandExpression(x);
    case Index(x, i) => BaseExpandExpression(x); BaseExpandExpression(i);
    case Prefix(_, x) => BaseExpandExpression(x);
    case Postfix(x, _, _) => BaseExpandExpression(x);
  }

  lemma {:induction false} BaseExpandArguments(args: seq<Expr>)
    ensures ExpandArguments(NoHoist, args) == ArgumentsExpansion([], args)
    decreases ExprsSize(args), 1, |args|
  {
    if args != [] {
      BaseExpandArguments(args[..|args| - 1]);
      BaseExpandExpression(args[|args| - 1]);
      assert args[..|args| - 1] + [args[|args| - 1]] == args;
    }
  }

  /** The base expander hands every statement back as the one-element list of itself. */
  lemma {:induction false} BaseExpandStatement(s: Stmt)
    ensures ExpandStatement(NoHoist, s) == [s]
    decreases StmtSize(s), 0, 0
  {
    match s
    case Block(ss) => BaseExpandStatements(ss);
    case LocalDeclaration(_, x) => BaseExpandExpression(x);
    case If(c, t, e) =>
      BaseExpandExpression(c); BaseExpandStatement(t);
      if e.Some? { BaseExpandStatement(e.value); }
    case While(c, b, _, _) => BaseExpandExpression(c); BaseExpandStatement(b);
    case DoWhile(b, c, _, _) => BaseExpandExpression(c); BaseExpandStatement(b);
    case ExpressionStatement(x) => BaseExpandExpression(x);
    case Return(x) => if x.Some? { BaseExpandExpression(x.value); }
    case _ =>
  }

  lemma {:induction false} BaseExpandStatements(ss: seq<Stmt>)
    ensures ExpandStatements(NoHoist, ss) == ss
    decreases StmtsSize(ss), 1, |ss|
  {
    if ss != [] {
      var front, last := ss[..|ss| - 1], ss[|ss| - 1];
      BaseExpandStatements(front);
      BaseExpandStatement(last);
      assert ExpandStatements(NoHoist, ss) == ExpandStatements(NoHoist, front) + ExpandStatement(NoHoist, last);
      assert front + [last] == ss;
    }
  }

  /** Block expansion distributes over concatenation: children are expanded independently and in order. */
  lemma {:induction false} ExpandStatementsAppend(hoist: Hoist, a: seq<Stmt>, b: seq<Stmt>)
    ensures ExpandStatements(hoist, a + b) == ExpandStatements(hoist, a) + ExpandStatements(hoist, b)
    decreases |b|
  {
    if b == [] {
      assert a + b == a;
    } else {
      var front, last := b[..|b| - 1], b[|b| - 1];
      assert (a + b)[..|a + b| - 1] == a + front;
      assert (a + b)[|a + b| - 1] == last;
      ExpandStatementsAppend(hoist, a, front);
      assert ExpandStatements(hoist, b) == ExpandStatements(hoist, front) + ExpandStatement(hoist, last);
      assert ExpandStatements(hoist, a + b) == ExpandStatements(hoist, a + front) + ExpandStatement(hoist, last);
    }
  }
}
