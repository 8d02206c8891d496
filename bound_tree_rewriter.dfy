/**
 * The base bound-tree rewriter (Binding/BoundTreeRewriter.cs). Every `Rewrite*` rebuilds a
 * node only when one of its children came back as a different node, and otherwise hands
 * back the very node it was given; an expression with a constant value is always replaced
 * by a fresh literal. Node identity is modelled by the `same` flag of `Rewritten`: it is
 * true exactly when the source returns the node it was given.
 */
module BoundTreeRewriter {
  import opened Wrappers
  import opened BoundTypes
  import opened BoundTree

  datatype Rewritten<T> = Rewritten(node: T, same: bool)

  /** Whether the rewriter meets a constant: a literal or a folded expression, in a position it visits. */
  predicate HasConstant(e: Expr)
    decreases ExprSize(e), 0, 0
  {
    match e
    case Literal(_) => true
    case Constant(_, _) => true
    case Variable(_) => false
    case Empty => false
    case Assignment(l, r) => HasConstant(l) || HasConstant(r)
    case CompoundAssignment(l, _, r) => HasConstant(l) || HasConstant(r)
    case Unary(_, x) => HasConstant(x)
    case Binary(l, _, r) => HasConstant(l) || HasConstant(r)
    case Ternary(l, c, r) => HasConstant(l) || HasConstant(c) || HasConstant(r)
    case Call(_, args) => AnyConstant(args)
    case Cast(_, x) => HasConstant(x)
    case Index(_, i) => HasConstant(i)
    case Prefix(_, x) => HasConstant(x)
    case Postfix(x, _, _) => HasConstant(x)
  }

  predicate AnyConstant(es: seq<Expr>)
    decreases ExprsSize(es), 1, |es|
  {
    es != [] && (AnyConstant(es[..|es| - 1]) || HasConstant(es[|es| - 1]))
  }

  /** Rebuilds a node from two rewritten children, unless both came back unchanged. */
  function Rebuild2(e: Expr, a: Rewritten<Expr>, b: Rewritten<Expr>, make: (Expr, Expr) -> Expr): Rewritten<Expr>
  {
    if a.same && b.same then Rewritten(e, true) else Rewritten(make(a.node, b.node), false)
  }

  /** Rebuilds a node from one rewritten child, unless it came back unchanged. */
  function Rebuild1(e: Expr, a: Rewritten<Expr>, make: Expr -> Expr): Rewritten<Expr>
  {
    if a.same then Rewritten(e, true) else Rewritten(make(a.node), false)
  }

  /**
   * `RewriteExpression`: a constant becomes a fresh literal of its value; anything else
   * is rebuilt from its rewritten children only when one of them changed. An index
   * expression's operand is not visited, only its index.
   */
  function RewriteExpression(e: Expr): (r: Rewritten<Expr>)
    ensures r.same ==> r.node == e
    ensures (e.Literal? || e.Constant?) ==> r == Rewritten(Literal(e.value), false)
    decreases ExprSize(e), 0, 0
  {
    match e
    case Literal(v) => Rewritten(Literal(v), false)
    case Constant(_, v) => Rewritten(Literal(v), false)
    case Variable(_) => Rewritten(e, true)
    case Empty => Rewritten(e, true)
    case Assignment(l, r) =>
      Rebuild2(e, RewriteExpression(l), RewriteExpression(r), (a, b) => Assignment(a, b))
    case CompoundAssignment(l, op, r) =>
      Rebuild2(e, RewriteExpression(l), RewriteExpression(r), (a, b) => CompoundAssignment(a, op, b))
    case Unary(op, x) => Rebuild1(e, RewriteExpression(x), a => Unary(op, a))
    case Binary(l, op, r) =>
      Rebuild2(e, RewriteExpression(l), RewriteExpression(r), (a, b) => Binary(a, op, b))
    case Ternary(l, c, r) =>
      var a, b, d := RewriteExpression(l), RewriteExpression(c), RewriteExpression(r);
      if a.same && b.same && d.same then Rewritten(e, true) else Rewritten(Ternary(a.node, b.node, d.node), false)
    case Call(name, args) =>
      var rs := RewriteList(args);
      if rs.same then Rewritten(e, true) else Rewritten(Call(name, rs.node), false)
    case Cast(t, x) => Rebuild1(e, RewriteExpression(x), a => Cast(t, a))
    case Index(x, i) => Rebuild1(e, RewriteExpression(i), a => Index(x, a))
    case Prefix(inc, x) => Rebuild1(e, RewriteExpression(x), a => Prefix(inc, a))
    case Postfix(x, inc, own) => Rebuild1(e, RewriteExpression(x), a => Postfix(a, inc, own))
  }

  /** Each element rewritten; the list is the same when every element is. */
  function RewriteList(es: seq<Expr>): (r: Rewritten<seq<Expr>>)
    ensures |r.node| == |es|
    ensures r.same ==> r.node == es
    decreases ExprsSize(es), 1, |es|
  {
    if es == [] then Rewritten([], true)
    else
      var front := RewriteList(es[..|es| - 1]);
      var last := RewriteExpression(es[|es| - 1]);
      Rewritten(front.node + [last.node], front.same && last.same)
  }

  /** The list rewrite is the element-wise rewrite, and keeps the list exactly when it keeps every element. */
  lemma {:induction false} ListElements(es: seq<Expr>)
    ensures forall i :: 0 <= i < |es| ==> RewriteList(es).node[i] == RewriteExpression(es[i]).node
    ensures RewriteList(es).same <==> forall i :: 0 <= i < |es| ==> RewriteExpression(es[i]).same
    decreases |es|
  {
    if es != [] {
      var front := es[..|es| - 1];
      ListElements(front);
      forall i | 0 <= i < |es| - 1 ensures es[i] == front[i] { }
    }
  }

  /**
   * `RewriteArguments`: nothing when no argument changed; otherwise the new list, whose
   * arguments before the first change are copied over as they were.
   */
  method RewriteArguments(arguments: seq<Expr>) returns (r: Option<seq<Expr>>)
    ensures r.None? <==> forall i :: 0 <= i < |arguments| ==> RewriteExpression(arguments[i]).same
    ensures r.Some? ==> (|r.value| == |arguments|
      && forall i :: 0 <= i < |arguments| ==> r.value[i] == RewriteExpression(arguments[i]).node)
  {
    var builder: Option<seq<Expr>> := None;
    var i := 0;
    while i < |arguments|
      invariant 0 <= i <= |arguments|
      invariant builder.None? <==> forall k :: 0 <= k < i ==> RewriteExpression(arguments[k]).same
      invariant builder.Some? ==> (|builder.value| == i
        && forall k :: 0 <= k < i ==> builder.value[k] == RewriteExpression(arguments[k]).node)
    {
      var newArgument := RewriteExpression(arguments[i]);
      if !newArgument.same && builder.None? {
        var copied := [];
        var j := 0;
        while j < i
          invariant 0 <= j <= i && copied == arguments[..j]
        {
          copied := copied + [arguments[j]];
          j := j + 1;
        }
        builder := Some(copied);
      }
      if builder.Some? {
        builder := Some(builder.value + [newArgument.node]);
      }
      i := i + 1;
    }
    r := builder;
  }

  /** Whether the rewriter meets a constant anywhere in a statement. */
  predicate StmtHasConstant(s: Stmt)
    decreases StmtSize(s), 0, 0
  {
    match s
    case Block(ss) => AnyStmtHasConstant(ss)
    case LocalDeclaration(_, x) => HasConstant(x)
    case If(c, t, e) => HasConstant(c) || StmtHasConstant(t) || (e.Some? && StmtHasConstant(e.value))
    case While(c, b, _, _) => HasConstant(c) || StmtHasConstant(b)
    case DoWhile(b, c, _, _) => StmtHasConstant(b) || HasConstant(c)
    case For(i, c, st, b, _, _) => StmtHasConstant(i) || HasConstant(c) || HasConstant(st) || StmtHasConstant(b)
    case ExpressionStatement(x) => HasConstant(x)
    case ConditionalGoto(_, c, _) => HasConstant(c)
    case Return(x) => x.Some? && HasConstant(x.value)
    case _ => false
  }

  predicate AnyStmtHasConstant(ss: seq<Stmt>)
    decreases StmtsSize(ss), 1, |ss|
  {
    ss != [] && (AnyStmtHasConstant(ss[..|ss| - 1]) || StmtHasConstant(ss[|ss| - 1]))
  }

  /** `RewriteStatement`: every statement kind rebuilt only when a child changed. */
  function RewriteStatement(s: Stmt): (r: Rewritten<Stmt>)
    ensures r.same ==> r.node == s
    decreases StmtSize(s), 0, 0
  {
    match s
    case Nop => Rewritten(s, true)
    case Label(_) => Rewritten(s, true)
    case Goto(_) => Rewritten(s, true)
    case Break => Rewritten(s, true)
    case Continue => Rewritten(s, true)
    case Block(ss) =>
      var rs := RewriteStatements(ss);
      if rs.same then Rewritten(s, true) else Rewritten(Block(rs.node), false)
    case LocalDeclaration(name, x) =>
      var a := RewriteExpression(x);
      if a.same then Rewritten(s, true) else Rewritten(LocalDeclaration(name, a.node), false)
    case If(c, t, e) =>
      var a, b := RewriteExpression(c), RewriteStatement(t);
      var d := if e.Some? then Some(RewriteStatement(e.value)) else None;
      if a.same && b.same && (d.None? || d.value.same) then Rewritten(s, true)
      else Rewritten(If(a.node, b.node, if d.Some? then Some(d.value.node) else None), false)
    case While(c, b, brk, cont) =>
      var x, y := RewriteExpression(c), RewriteStatement(b);
      if x.same && y.same then Rewritten(s, true) else Rewritten(While(x.node, y.node, brk, cont), false)
    case DoWhile(b, c, brk, cont) =>
      var y, x := RewriteStatement(b), RewriteExpression(c);
      if x.same && y.same then Rewritten(s, true) else Rewritten(DoWhile(y.node, x.node, brk, cont), false)
    case For(i, c, st, b, brk, cont) =>
      var x, w, z, y := RewriteExpression(c), RewriteStatement(i), RewriteExpression(st), RewriteStatement(b);
      if w.same && x.same && z.same && y.same then Rewritten(s, true)
      else Rewritten(For(w.node, x.node, z.node, y.node, brk, cont), false)
    case ExpressionStatement(x) =>
      var a := RewriteExpression(x);
      if a.same then Rewritten(s, true) else Rewritten(ExpressionStatement(a.node), false)
    case ConditionalGoto(name, c, jump) =>
      var a := RewriteExpression(c);
      if a.same then Rewritten(s, true) else Rewritten(ConditionalGoto(name, a.node, jump), false)
    case Return(x) =>
      if x.None? then Rewritten(s, true)
      else
        var a := RewriteExpression(x.value);
        if a.same then Rewritten(s, true) else Rewritten(Return(Some(a.node)), false)
  }

  /** Each statement of a block rewritten; the list is the same when every statement is. */
  function RewriteStatements(ss: seq<Stmt>): (r: Rewritten<seq<Stmt>>)
    ensures |r.node| == |ss|
    ensures r.same ==> r.node == ss
    decreases StmtsSize(ss), 1, |ss|
  {
    if ss == [] then Rewritten([], true)
    else
      var front := RewriteStatements(ss[..|ss| - 1]);
      var last := RewriteStatement(ss[|ss| - 1]);
      Rewritten(front.node + [last.node], front.same && last.same)
  }

  /** The block rewrite is the element-wise rewrite, and keeps the block exactly when it keeps every statement. */
  lemma {:induction false} StatementsElements(ss: seq<Stmt>)
    ensures forall i :: 0 <= i < |ss| ==> RewriteStatements(ss).node[i] == RewriteStatement(ss[i]).node
    ensures RewriteStatements(ss).same <==> forall i :: 0 <= i < |ss| ==> RewriteStatement(ss[i]).same
    decreases |ss|
  {
    if ss != [] {
      var front := ss[..|ss| - 1];
      StatementsElements(front);
      forall i | 0 <= i < |ss| - 1 ensures ss[i] == front[i] { }
    }
  }

  /**
   * `RewriteBlockStatement`: the block itself when no statement changed; otherwise a new
   * block of the same length, whose statements before the first change are copied over.
   */
  method RewriteBlockStatement(statements: seq<Stmt>) returns (r: Rewritten<Stmt>)
    ensures r == RewriteStatement(Block(statements))
    ensures r.node.Block? && |r.node.statements| == |statements|
  {
    var builder: Option<seq<Stmt>> := None;
    var i := 0;
    while i < |statements|
      invariant 0 <= i <= |statements|
      invariant builder.None? <==> forall k :: 0 <= k < i ==> RewriteStatement(statements[k]).same
      invariant builder.Some? ==> (|builder.value| == i
        && forall k :: 0 <= k < i ==> builder.value[k] == RewriteStatement(statements[k]).node)
    {
      var oldStatement := statements[i];
      var newStatement := RewriteStatement(oldStatement);
      if !newStatement.same && builder.None? {
        var copied := [];
        var j := 0;
        while j < i
          invariant 0 <= j <= i && copied == statements[..j]
        {
          copied := copied + [statements[j]];
          j := j + 1;
        }
        builder := Some(copied);
      }
      if builder.Some? {
        builder := Some(builder.value + [newStatement.node]);
      }
      i := i + 1;
    }
    var rs := RewriteStatements(statements);
    StatementsElements(statements);
    if builder.None? {
      r := Rewritten(Block(statements), true);
    } else {
      assert builder.value == rs.node;
      r := Rewritten(Block(builder.value), false);
    }
  }

  /** An expression comes back as the very same node exactly when the rewriter meets no constant in it. */
  lemma {:induction false} SameIffNoConstant(e: Expr)
    ensures RewriteExpression(e).same <==> !HasConstant(e)
    decreases ExprSize(e), 0, 0
  {
    match e
    case Literal(_) =>
    case Constant(_, _) =>
    case Variable(_) =>
    case Empty =>
    case Assignment(l, r) => SameIffNoConstant(l); SameIffNoConstant(r);
    case CompoundAssignment(l, _, r) => SameIffNoConstant(l); SameIffNoConstant(r);
    case Unary(_, x) => SameIffNoConstant(x);
    case Binary(l, _, r) => SameIffNoConstant(l); SameIffNoConstant(r);
    case Ternary(l, c, r) => SameIffNoConstant(l); SameIffNoConstant(c); SameIffNoConstant(r);
    case Call(_, args) => ListSameIffNoConstant(args);
    case Cast(_, x) => SameIffNoConstant(x);
    case Index(_, i) => SameIffNoConstant(i);
    case Prefix(_, x) => SameIffNoConstant(x);
    case Postfix(x, _, _) => SameIffNoConstant(x);
  }

  lemma {:induction false} ListSameIffNoConstant(es: seq<Expr>)
    ensures RewriteList(es).same <==> !AnyConstant(es)
    decreases ExprsSize(es), 1, |es|
  {
    if es != [] {
      ListSameIffNoConstant(es[..|es| - 1]);
      SameIffNoConstant(es[|es| - 1]);
      var front := RewriteList(es[..|es| - 1]);
      assert RewriteList(es).same == (front.same && RewriteExpression(es[|es| - 1]).same);
    }
  }

  /** A statement comes back as the very same node exactly when the rewriter meets no constant in it. */
  lemma {:induction false} StmtSameIffNoConstant(s: Stmt)
    ensures RewriteStatement(s).same <==> !StmtHasConstant(s)
    decreases StmtSize(s), 0, 0
  {
    match s
    case Block(ss) => StmtsSameIffNoConstant(ss);
    case LocalDeclaration(_, x) => SameIffNoConstant(x);
    case If(c, t, e) =>
      SameIffNoConstant(c); StmtSameIffNoConstant(t);
      if e.Some? { StmtSameIffNoConstant(e.value); }
    case While(c, b, _, _) => SameIffNoConstant(c); StmtSameIffNoConstant(b);
    case DoWhile(b, c, _, _) => SameIffNoConstant(c); StmtSameIffNoConstant(b);
    case For(i, c, st, b, _, _) =>
      StmtSameIffNoConstant(i); SameIffNoConstant(c); SameIffNoConstant(st); StmtSameIffNoConstant(b);
    case ExpressionStatement(x) => SameIffNoConstant(x);
    case ConditionalGoto(_, c, _) => SameIffNoConstant(c);
    case Return(x) => if x.Some? { SameIffNoConstant(x.value); }
    case _ =>
  }

  lemma {:induction false} StmtsSameIffNoConstant(ss: seq<Stmt>)
    ensures RewriteStatements(ss).same <==> !AnyStmtHasConstant(ss)
    decreases StmtsSize(ss), 1, |ss|
  {
    if ss != [] {
      StmtsSameIffNoConstant(ss[..|ss| - 1]);
      StmtSameIffNoConstant(ss[|ss| - 1]);
      var front := RewriteStatements(ss[..|ss| - 1]);
      assert RewriteStatements(ss).same == (front.same && RewriteStatement(ss[|ss| - 1]).same);
    }
  }

  /** Rewriting twice gives what rewriting once gave: the base rewriter is idempotent on values. */
  lemma {:induction false} RewriteIdempotent(e: Expr)
    ensures RewriteExpression(RewriteExpression(e).node).node == RewriteExpression(e).node
    decreases ExprSize(e), 0, 1
  {
    match e
    case Literal(_) =>
    case Constant(_, _) =>
    case Variable(_) =>
    case Empty =>
    case Unary(_, x) => RewriteIdempotent(x);
    case Call(name, args) =>
      ListIdempotent(args);
      var rs := RewriteList(args);
      if !rs.same {
        assert RewriteExpression(Call(name, rs.node)).node == Call(name, RewriteList(rs.node).node);
      }
    case Cast(_, x) => RewriteIdempotent(x);
    case Index(_, i) => RewriteIdempotent(i);
    case Prefix(_, x) => RewriteIdempotent(x);
    case Postfix(x, _, _) => RewriteIdempotent(x);
    case _ => OperatorIdempotent(e);
  }

  /** The cases of `RewriteIdempotent` with two or three operands. */
  lemma {:induction false} OperatorIdempotent(e: Expr)
    requires e.Assignment? || e.CompoundAssignment? || e.Binary? || e.Ternary?
    ensures RewriteExpression(RewriteExpression(e).node).node == RewriteExpression(e).node
    decreases ExprSize(e), 0, 0
  {
    match e
    case Assignment(l, r) => RewriteIdempotent(l); RewriteIdempotent(r);
    case CompoundAssignment(l, _, r) => RewriteIdempotent(l); RewriteIdempotent(r);
    case Binary(l, _, r) => RewriteIdempotent(l); RewriteIdempotent(r);
    case Ternary(l, c, r) => RewriteIdempotent(l); RewriteIdempotent(c); RewriteIdempotent(r);
  }

  lemma {:induction false} ListIdempotent(es: seq<Expr>)
    ensures RewriteList(RewriteList(es).node).node == RewriteList(es).node
    decreases ExprsSize(es), 1, |es|
  {
    var once := RewriteList(es).node;
    var twice := RewriteList(once).node;
    ListElements(es);
    ListElements(once);
    forall i | 0 <= i < |es| ensures twice[i] == once[i] {
      ExprsSizeElement(es, i);
      RewriteIdempotent(es[i]);
    }
  }
}
