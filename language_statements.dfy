/**
 * The statement half of the compiler's parser (LanguageParser.cs):
 * statements, blocks and the global statements of a compilation unit.
 *
 * As for expressions, the parse functions read the buffered token stream
 * and thread the parser state as a value. Statements are always parsed at
 * the bottom of the bracket stack and with the expect-parenthesis flag
 * clear, and every statement consumes at least one token; the guards the
 * source places in its block and member loops (eat a token when a
 * statement consumed nothing) are modelled as written all the same.
 */
module LanguageStatements {
  import opened Wrappers
  import opened SyntaxFacts
  import opened LexerSpec
  import SyntaxParser
  import opened LanguageParser

  // ---------------------------------------------------------------------------
  // Statement nodes

  /**
   * The statements of this model. `diagnostics` holds the diagnostics the
   * parser attaches to a whole node (`AddDiagnostic(node, ..)`).
   */
  datatype Stmt =
    | Block(open: Token, statements: seq<Stmt>, close: Token, diagnostics: seq<LexError>)
    | If(keyword: Token, open: Token, condition: Expr, close: Token, thenBranch: Stmt, elseClause: Option<ElseClause>,
         diagnostics: seq<LexError>)
    | While(keyword: Token, open: Token, condition: Expr, close: Token, body: Stmt)
    | DoWhile(doKeyword: Token, body: Stmt, whileKeyword: Token, open: Token, condition: Expr, close: Token,
              semicolon: Token)
    | For(keyword: Token, open: Token, initializer: Stmt, condition: Expr, semicolon: Token, step: Expr,
          close: Token, body: Stmt)
    | Try(keyword: Token, body: Stmt, catchClause: Option<Clause>, finallyClause: Option<Clause>)
    | Break(keyword: Token, semicolon: Token)
    | Continue(keyword: Token, semicolon: Token)
    | Return(keyword: Token, returned: Option<Expr>, semicolon: Token)
    | ExpressionStatement(expression: Expr, semicolon: Token)

  datatype ElseClause = ElseClause(keyword: Token, statement: Stmt, diagnostics: seq<LexError>)

  /** A `catch` or `finally` clause: its keyword and its block. */
  datatype Clause = Clause(keyword: Token, body: Stmt)

  datatype StmtResult = StmtResult(stmt: Stmt, s: PState)

  datatype StmtsResult = StmtsResult(statements: seq<Stmt>, s: PState)

  /** Every expression of the statement respects the operators' precedences. */
  predicate StmtWellNested(st: Stmt)
  {
    match st
    case Block(_, ss, _, _) => forall i :: 0 <= i < |ss| ==> StmtWellNested(ss[i])
    case If(_, _, c, _, t, e, _) =>
      WellNested(c) && StmtWellNested(t) && (e.Some? ==> StmtWellNested(e.value.statement))
    case While(_, _, c, _, b) => WellNested(c) && StmtWellNested(b)
    case DoWhile(_, b, _, _, c, _, _) => StmtWellNested(b) && WellNested(c)
    case For(_, _, i, c, _, st, _, b) => StmtWellNested(i) && WellNested(c) && WellNested(st) && StmtWellNested(b)
    case Try(_, b, c, f) =>
      StmtWellNested(b) && (c.Some? ==> StmtWellNested(c.value.body)) && (f.Some? ==> StmtWellNested(f.value.body))
    case Break(_, _) => true
    case Continue(_, _) => true
    case Return(_, e, _) => e.Some? ==> WellNested(e.value)
    case ExpressionStatement(e, _) => WellNested(e)
  }

  /** Statements are parsed with the expect-parenthesis flag clear. */
  predicate AtStatement(s: PState)
  {
    !s.expectParen
  }

  /** Once the position is past a token that is not the end of file, fewer buffered tokens remain. */
  lemma PastToken(toks: seq<Token>, s: PState, t: PState)
    requires s.pos < t.pos && Kind(toks, t) != EndOfFileToken
    ensures Remaining(toks, t) < Remaining(toks, s)
  {
  }

  // ---------------------------------------------------------------------------
  // The ambiguous-else check of `ParseIfStatement`

  /**
   * How many if statements along the chain of `then` branches starting at
   * `st` have an else clause after a branch that is no block: each of them
   * puts one AmbiguousElse diagnostic on the outer `then` branch.
   */
  function AmbiguousElses(st: Stmt): nat
  {
    if !st.If? then 0
    else
      (if st.elseClause.Some? && !st.thenBranch.Block? then 1 else 0) +
      (if st.thenBranch.If? then AmbiguousElses(st.thenBranch) else 0)
  }

  /** The diagnostic `n` times over. */
  function Repeat(e: LexError, n: nat): (r: seq<LexError>)
    ensures |r| == n && forall i :: 0 <= i < n ==> r[i] == e
  {
    if n == 0 then [] else Repeat(e, n - 1) + [e]
  }

  /**
   * The loop of `ParseIfStatement` that walks the `then` branches: whether
   * the branch is a nested if statement, and how many ambiguous else
   * clauses the walk finds.
   */
  method WalkNestedIfs(thenBranch: Stmt) returns (nestedIf: bool, count: nat)
    ensures nestedIf <==> thenBranch.If?
    ensures count == AmbiguousElses(thenBranch)
  {
    nestedIf := false;
    count := 0;
    var inner := thenBranch;
    while inner.If?
      invariant nestedIf ==> thenBranch.If?
      invariant !nestedIf ==> inner == thenBranch
      invariant count + AmbiguousElses(inner) == AmbiguousElses(thenBranch)
      decreases inner
    {
      nestedIf := true;
      if inner.elseClause.Some? && !inner.thenBranch.Block? {
        count := count + 1;
      }
      if inner.thenBranch.If? {
        inner := inner.thenBranch;
      } else {
        break;
      }
    }
  }

  /** The outer `then` branch with the walk's diagnostics attached (only an if statement receives any). */
  function MarkThen(thenBranch: Stmt): (r: Stmt)
    ensures r.If? <==> thenBranch.If?
    ensures AmbiguousElses(r) == AmbiguousElses(thenBranch)
    ensures StmtWellNested(r) <==> StmtWellNested(thenBranch)
    ensures r.If? ==> r.(diagnostics := thenBranch.diagnostics) == thenBranch &&
                      r.diagnostics == thenBranch.diagnostics + Repeat(AmbiguousElse, AmbiguousElses(thenBranch))
    ensures !r.If? ==> r == thenBranch
  {
    if thenBranch.If? then
      var t := thenBranch;
      If(t.keyword, t.open, t.condition, t.close, t.thenBranch, t.elseClause,
         t.diagnostics + Repeat(AmbiguousElse, AmbiguousElses(t)))
    else thenBranch
  }

  /** The else clause, marked ambiguous when the `then` branch is a nested if statement. */
  function MarkElse(thenBranch: Stmt, elseClause: Option<ElseClause>): (r: Option<ElseClause>)
    ensures r.Some? <==> elseClause.Some?
    ensures r.Some? ==> r.value.keyword == elseClause.value.keyword && r.value.statement == elseClause.value.statement
    ensures r.Some? && thenBranch.If? ==> r.value.diagnostics == elseClause.value.diagnostics + [AmbiguousElse]
    ensures r.Some? && !thenBranch.If? ==> r.value.diagnostics == elseClause.value.diagnostics
  {
    if elseClause.Some? && !thenBranch.Block? && thenBranch.If? then
      Some(elseClause.value.(diagnostics := elseClause.value.diagnostics + [AmbiguousElse]))
    else elseClause
  }

  // ---------------------------------------------------------------------------
  // Statements

  /** `ParseStatement`: dispatch on the current token; anything else is an expression statement. */
  function ParseStatement(toks: seq<Token>, s: PState): (r: StmtResult)
    requires AtStatement(s)
    ensures s.pos < r.s.pos && AtStatement(r.s)
    ensures StmtWellNested(r.stmt) && (r.stmt.If? ==> r.stmt.diagnostics == [])
    decreases Remaining(toks, s), 5
  {
    var k := Kind(toks, s);
    if k == OpenBraceToken then ParseBlock(toks, s)
    else if k == IfKeyword then ParseIf(toks, s)
    else if k == WhileKeyword then ParseWhile(toks, s)
    else if k == ForKeyword then ParseFor(toks, s)
    else if k == DoKeyword then ParseDoWhile(toks, s)
    else if k == TryKeyword then ParseTry(toks, s)
    else if k == BreakKeyword then ParseBreak(toks, s)
    else if k == ContinueKeyword then ParseContinue(toks, s)
    else if k == ReturnKeyword then ParseReturn(toks, s)
    else ParseExpressionStatement(toks, s)
  }

  /** The current token alone decides which statement is parsed. */
  lemma StatementKind(toks: seq<Token>, s: PState)
    requires AtStatement(s)
    ensures ParseStatement(toks, s).stmt.Block? <==> Kind(toks, s) == OpenBraceToken
    ensures ParseStatement(toks, s).stmt.If? <==> Kind(toks, s) == IfKeyword
    ensures ParseStatement(toks, s).stmt.While? <==> Kind(toks, s) == WhileKeyword
    ensures ParseStatement(toks, s).stmt.For? <==> Kind(toks, s) == ForKeyword
    ensures ParseStatement(toks, s).stmt.DoWhile? <==> Kind(toks, s) == DoKeyword
    ensures ParseStatement(toks, s).stmt.Try? <==> Kind(toks, s) == TryKeyword
    ensures ParseStatement(toks, s).stmt.Break? <==> Kind(toks, s) == BreakKeyword
    ensures ParseStatement(toks, s).stmt.Continue? <==> Kind(toks, s) == ContinueKeyword
    ensures ParseStatement(toks, s).stmt.Return? <==> Kind(toks, s) == ReturnKeyword
  {
  }

  /**
   * `ParseBlockStatement`: `{`, statements up to the end of file or a `}`,
   * then `}`. A block is measured from just after its open brace, which is
   * where its statements start.
   */
  function ParseBlock(toks: seq<Token>, s: PState): (r: StmtResult)
    requires AtStatement(s)
    ensures s.pos < r.s.pos && AtStatement(r.s)
    ensures r.stmt.Block? && r.stmt.diagnostics == [] && StmtWellNested(r.stmt)
    ensures r.stmt.close.kind == CloseBraceToken
    decreases Remaining(toks, Match(toks, s, OpenBraceToken).s), 7
  {
    var open := Match(toks, s, OpenBraceToken);
    var body :=
      if Kind(toks, open.s) == EndOfFileToken || Kind(toks, open.s) == CloseBraceToken then StmtsResult([], open.s)
      else BlockLoop(toks, open.s, []);
    var close := Match(toks, body.s, CloseBraceToken);
    StmtResult(Block(open.token, body.statements, close.token, []), close.s)
  }

  /**
   * The loop of `ParseBlockStatement`: one statement per turn, with a token
   * eaten when the statement left the current token where it was.
   */
  function BlockLoop(toks: seq<Token>, s: PState, statements: seq<Stmt>): (r: StmtsResult)
    requires AtStatement(s) && Kind(toks, s) != EndOfFileToken
    requires forall i :: 0 <= i < |statements| ==> StmtWellNested(statements[i])
    ensures s.pos < r.s.pos && AtStatement(r.s)
    ensures Kind(toks, r.s) == EndOfFileToken || Kind(toks, r.s) == CloseBraceToken
    ensures |statements| < |r.statements| && r.statements[..|statements|] == statements
    ensures forall i :: 0 <= i < |r.statements| ==> StmtWellNested(r.statements[i])
    decreases Remaining(toks, s), 6
  {
    var statement := ParseStatement(toks, s);
    var next :=
      if statement.s.pos == s.pos && Cur(toks, statement.s) == Cur(toks, s) then Eat(toks, statement.s).s
      else statement.s;
    var statements' := statements + [statement.stmt];
    if Kind(toks, next) == EndOfFileToken || Kind(toks, next) == CloseBraceToken then StmtsResult(statements', next)
    else
      PastToken(toks, s, next);
      var r := BlockLoop(toks, next, statements');
      assert r.statements[..|statements|] == r.statements[..|statements'|][..|statements|];
      r
  }

  /**
   * `ParseIfStatement`: the condition, the `then` branch and an optional
   * else clause. Each nested if statement along the `then` branches whose
   * else clause follows a branch that is no block puts an AmbiguousElse
   * diagnostic on the outer branch, and an else clause after a nested if
   * statement is itself marked AmbiguousElse.
   */
  function ParseIf(toks: seq<Token>, s: PState): (r: StmtResult)
    requires AtStatement(s) && Kind(toks, s) == IfKeyword
    ensures s.pos < r.s.pos && AtStatement(r.s)
    ensures r.stmt.If? && r.stmt.diagnostics == [] && StmtWellNested(r.stmt)
    decreases Remaining(toks, s), 4
  {
    var keyword := Eat(toks, s);
    var open := Match(toks, keyword.s, OpenParenToken);
    var condition := ParseNonAssignment(TopLevel, toks, open.s);
    var close := Match(toks, condition.s, CloseParenToken);
    var thenBranch := ParseStatement(toks, close.s);
    FinishIf(toks, keyword.token, open.token, condition.e, close.token, thenBranch)
  }

  /** The rest of `ParseIfStatement` once the `then` branch is parsed: the else clause and the ambiguous-else marks. */
  function FinishIf(toks: seq<Token>, keyword: Token, open: Token, condition: Expr, close: Token, thenBranch: StmtResult)
    : (r: StmtResult)
    requires AtStatement(thenBranch.s) && WellNested(condition) && StmtWellNested(thenBranch.stmt)
    requires thenBranch.stmt.If? ==> thenBranch.stmt.diagnostics == []
    ensures thenBranch.s.pos <= r.s.pos && AtStatement(r.s)
    ensures r.stmt.If? && r.stmt.diagnostics == [] && StmtWellNested(r.stmt)
    ensures r.stmt.thenBranch.If? ==>
      r.stmt.thenBranch.diagnostics == Repeat(AmbiguousElse, AmbiguousElses(r.stmt.thenBranch))
    ensures r.stmt.elseClause.Some? ==>
      r.stmt.elseClause.value.diagnostics == (if r.stmt.thenBranch.If? then [AmbiguousElse] else [])
    decreases Remaining(toks, thenBranch.s), 4
  {
    var elseClause := ParseElse(toks, thenBranch.s);
    StmtResult(If(keyword, open, condition, close, MarkThen(thenBranch.stmt), MarkElse(thenBranch.stmt, elseClause.clause), []),
               elseClause.s)
  }

  datatype ElseResult = ElseResult(clause: Option<ElseClause>, s: PState)

  /** `ParseElseClause`: nothing unless the current token is `else`. */
  function ParseElse(toks: seq<Token>, s: PState): (r: ElseResult)
    requires AtStatement(s)
    ensures s.pos <= r.s.pos && AtStatement(r.s)
    ensures r.clause.Some? <==> Kind(toks, s) == ElseKeyword
    ensures r.clause.None? ==> r.s == s
    ensures r.clause.Some? ==> r.clause.value.diagnostics == [] && StmtWellNested(r.clause.value.statement)
    decreases Remaining(toks, s), 3
  {
    if Kind(toks, s) != ElseKeyword then ElseResult(None, s)
    else
      var keyword := Match(toks, s, ElseKeyword);
      var statement := ParseStatement(toks, keyword.s);
      ElseResult(Some(ElseClause(keyword.token, statement.stmt, [])), statement.s)
  }

  /** `ParseWhileStatement`: `while ( condition ) body`. */
  function ParseWhile(toks: seq<Token>, s: PState): (r: StmtResult)
    requires AtStatement(s) && Kind(toks, s) == WhileKeyword
    ensures s.pos < r.s.pos && AtStatement(r.s)
    ensures r.stmt.While? && StmtWellNested(r.stmt)
    decreases Remaining(toks, s), 4
  {
    var keyword := Eat(toks, s);
    var open := Match(toks, keyword.s, OpenParenToken);
    var condition := ParseNonAssignment(TopLevel, toks, open.s);
    var close := Match(toks, condition.s, CloseParenToken);
    var body := ParseStatement(toks, close.s);
    StmtResult(While(keyword.token, open.token, condition.e, close.token, body.stmt), body.s)
  }

  /** `ParseDoWhileStatement`: `do body while ( condition ) ;`. */
  function ParseDoWhile(toks: seq<Token>, s: PState): (r: StmtResult)
    requires AtStatement(s) && Kind(toks, s) == DoKeyword
    ensures s.pos < r.s.pos && AtStatement(r.s)
    ensures r.stmt.DoWhile? && StmtWellNested(r.stmt)
    ensures r.stmt.whileKeyword.kind == WhileKeyword && r.stmt.semicolon.kind == SemicolonToken
    decreases Remaining(toks, s), 4
  {
    var doKeyword := Eat(toks, s);
    var body := ParseStatement(toks, doKeyword.s);
    var whileKeyword := Match(toks, body.s, WhileKeyword);
    var open := Match(toks, whileKeyword.s, OpenParenToken);
    var condition := ParseNonAssignment(TopLevel, toks, open.s);
    var close := Match(toks, condition.s, CloseParenToken);
    var semicolon := Match(toks, close.s, SemicolonToken);
    StmtResult(DoWhile(doKeyword.token, body.stmt, whileKeyword.token, open.token, condition.e, close.token,
                       semicolon.token), semicolon.s)
  }

  /**
   * `ParseForStatement`: `for (`, an initializer statement, the condition,
   * `;`, a step (empty right before `)`), `)` and the body.
   */
  function ParseFor(toks: seq<Token>, s: PState): (r: StmtResult)
    requires AtStatement(s) && Kind(toks, s) == ForKeyword
    ensures s.pos < r.s.pos && AtStatement(r.s)
    ensures r.stmt.For? && StmtWellNested(r.stmt)
    decreases Remaining(toks, s), 4
  {
    var keyword := Eat(toks, s);
    var open := Match(toks, keyword.s, OpenParenToken);
    var initializer := ParseStatement(toks, open.s);
    var condition := ParseNonAssignment(TopLevel, toks, initializer.s);
    var semicolon := Match(toks, condition.s, SemicolonToken);
    var step :=
      if Kind(toks, semicolon.s) == CloseParenToken then ExprResult(Empty, semicolon.s)
      else ParseExpression(TopLevel, toks, false, semicolon.s);
    var close := Match(toks, step.s, CloseParenToken);
    var body := ParseStatement(toks, close.s);
    StmtResult(For(keyword.token, open.token, initializer.stmt, condition.e, semicolon.token, step.e, close.token,
                   body.stmt), body.s)
  }

  /**
   * `ParseTryStatement`: `try`, a block, then optional catch and finally
   * clauses; when both are absent the block is marked NoCatchOrFinally.
   */
  function ParseTry(toks: seq<Token>, s: PState): (r: StmtResult)
    requires AtStatement(s) && Kind(toks, s) == TryKeyword
    ensures s.pos < r.s.pos && AtStatement(r.s)
    ensures r.stmt.Try? && r.stmt.body.Block? && StmtWellNested(r.stmt)
    ensures r.stmt.body.diagnostics == (if r.stmt.catchClause.None? && r.stmt.finallyClause.None? then [NoCatchOrFinally] else [])
    decreases Remaining(toks, s), 4
  {
    var keyword := Eat(toks, s);
    var body := ParseBlock(toks, keyword.s);
    var catchClause := ParseClause(toks, body.s, CatchKeyword);
    var finallyClause := ParseClause(toks, catchClause.s, FinallyKeyword);
    var block :=
      if catchClause.clause.None? && finallyClause.clause.None? then
        Block(body.stmt.open, body.stmt.statements, body.stmt.close, [NoCatchOrFinally])
      else body.stmt;
    StmtResult(Try(keyword.token, block, catchClause.clause, finallyClause.clause), finallyClause.s)
  }

  datatype ClauseResult = ClauseResult(clause: Option<Clause>, s: PState)

  /** `ParseCatchClause` / `ParseFinallyClause`: nothing unless the current token is the clause's keyword. */
  function ParseClause(toks: seq<Token>, s: PState, keyword: SyntaxKind): (r: ClauseResult)
    requires AtStatement(s) && (keyword == CatchKeyword || keyword == FinallyKeyword)
    ensures s.pos <= r.s.pos && AtStatement(r.s)
    ensures r.clause.Some? <==> Kind(toks, s) == keyword
    ensures r.clause.None? ==> r.s == s
    ensures r.clause.Some? ==> r.clause.value.body.Block? && StmtWellNested(r.clause.value.body)
    decreases Remaining(toks, s), 3
  {
    if Kind(toks, s) != keyword then ClauseResult(None, s)
    else
      var k := Eat(toks, s);
      var body := ParseBlock(toks, k.s);
      ClauseResult(Some(Clause(k.token, body.stmt)), body.s)
  }

  /** `ParseReturnStatement`: `return`, an expression unless a `;` follows, then `;`. */
  function ParseReturn(toks: seq<Token>, s: PState): (r: StmtResult)
    requires AtStatement(s) && Kind(toks, s) == ReturnKeyword
    ensures s.pos < r.s.pos && AtStatement(r.s)
    ensures r.stmt.Return? && StmtWellNested(r.stmt) && r.stmt.semicolon.kind == SemicolonToken
    ensures r.stmt.returned.None? <==> Tok(toks, s.pos + 1).kind == SemicolonToken
    decreases Remaining(toks, s), 4
  {
    var keyword := Eat(toks, s);
    var expression :=
      if Kind(toks, keyword.s) != SemicolonToken then Some(ParseExpression(TopLevel, toks, false, keyword.s)) else None;
    var s1 := if expression.Some? then expression.value.s else keyword.s;
    var semicolon := Match(toks, s1, SemicolonToken);
    StmtResult(Return(keyword.token, if expression.Some? then Some(expression.value.e) else None, semicolon.token),
               semicolon.s)
  }

  /** `ParseBreakStatement`: `break ;`. */
  function ParseBreak(toks: seq<Token>, s: PState): (r: StmtResult)
    requires AtStatement(s) && Kind(toks, s) == BreakKeyword
    ensures s.pos < r.s.pos && AtStatement(r.s)
    ensures r.stmt.Break? && r.stmt.keyword.kind == BreakKeyword && r.stmt.semicolon.kind == SemicolonToken
    decreases Remaining(toks, s), 4
  {
    var keyword := Eat(toks, s);
    var semicolon := Match(toks, keyword.s, SemicolonToken);
    StmtResult(Break(keyword.token, semicolon.token), semicolon.s)
  }

  /** `ParseContinueStatement`: `continue ;`. */
  function ParseContinue(toks: seq<Token>, s: PState): (r: StmtResult)
    requires AtStatement(s) && Kind(toks, s) == ContinueKeyword
    ensures s.pos < r.s.pos && AtStatement(r.s)
    ensures r.stmt.Continue? && r.stmt.keyword.kind == ContinueKeyword && r.stmt.semicolon.kind == SemicolonToken
    decreases Remaining(toks, s), 4
  {
    var keyword := Eat(toks, s);
    var semicolon := Match(toks, keyword.s, SemicolonToken);
    StmtResult(Continue(keyword.token, semicolon.token), semicolon.s)
  }

  /**
   * `ParseExpressionStatement`: an expression (possibly empty) and `;`.
   * When parsing the expression added a diagnostic to the current token
   * and the `;` had to be fabricated, the `;`'s last diagnostic repeats
   * that one and is dropped.
   */
  function ParseExpressionStatement(toks: seq<Token>, s: PState): (r: StmtResult)
    requires AtStatement(s)
    ensures s.pos < r.s.pos && AtStatement(r.s)
    ensures r.stmt.ExpressionStatement? && StmtWellNested(r.stmt) && r.stmt.semicolon.kind == SemicolonToken
    decreases Remaining(toks, s), 4
  {
    var before := |Cur(toks, s).diagnostics|;
    var expression := ParseExpression(TopLevel, toks, true, s);
    var after := |Cur(toks, expression.s).diagnostics|;
    var semicolon := Match(toks, expression.s, SemicolonToken);
    StmtResult(ExpressionStatement(expression.e, Deduplicated(semicolon.token, after > before)), semicolon.s)
  }

  /**
   * The `;` of an expression statement: when the expression reported on the
   * current token (`reported`) and the `;` carries diagnostics, a fabricated
   * `;` loses its last one, which repeats the expression's report; any
   * other `;` keeps its diagnostics.
   */
  function Deduplicated(semicolon: Token, reported: bool): (r: Token)
    ensures r.kind == semicolon.kind && r.text == semicolon.text
    ensures r.leading == semicolon.leading && r.trailing == semicolon.trailing
    ensures reported && semicolon.IsMissing() && |semicolon.diagnostics| > 0 ==>
      r.diagnostics + [semicolon.diagnostics[|semicolon.diagnostics| - 1]] == semicolon.diagnostics
    ensures !(reported && semicolon.IsMissing()) ==> r.diagnostics == semicolon.diagnostics
  {
    if reported && TokenHasDiagnostics(semicolon) && semicolon.IsMissing() then
      var ds := semicolon.diagnostics;
      semicolon.(diagnostics := if |ds| == 0 then ds else ds[..|ds| - 1])
    else semicolon
  }

  // ---------------------------------------------------------------------------
  // Members

  datatype Member = GlobalStatement(statement: Stmt)

  datatype MembersResult = MembersResult(members: seq<Member>, s: PState)

  /**
   * `ParseMembers(isGlobal)`: members up to the end of file (or a `}`,
   * outside the global level), each turn making progress. The members of
   * this model are global statements.
   */
  function ParseMembers(toks: seq<Token>, isGlobal: bool, s: PState): (r: MembersResult)
    requires AtStatement(s)
    ensures s.pos <= r.s.pos && AtStatement(r.s)
    ensures Kind(toks, r.s) == EndOfFileToken || (!isGlobal && Kind(toks, r.s) == CloseBraceToken)
    ensures forall i :: 0 <= i < |r.members| ==> StmtWellNested(r.members[i].statement)
    ensures Kind(toks, s) == EndOfFileToken ==> r == MembersResult([], s)
  {
    MembersLoop(toks, isGlobal, s, [])
  }

  function MembersLoop(toks: seq<Token>, isGlobal: bool, s: PState, members: seq<Member>): (r: MembersResult)
    requires AtStatement(s)
    requires forall i :: 0 <= i < |members| ==> StmtWellNested(members[i].statement)
    ensures s.pos <= r.s.pos && AtStatement(r.s)
    ensures Kind(toks, r.s) == EndOfFileToken || (!isGlobal && Kind(toks, r.s) == CloseBraceToken)
    ensures |members| <= |r.members| && r.members[..|members|] == members
    ensures forall i :: 0 <= i < |r.members| ==> StmtWellNested(r.members[i].statement)
    ensures Kind(toks, s) == EndOfFileToken ==> r == MembersResult(members, s)
    decreases Remaining(toks, s)
  {
    if Kind(toks, s) == EndOfFileToken || (!isGlobal && Kind(toks, s) == CloseBraceToken) then MembersResult(members, s)
    else
      var member := ParseStatement(toks, s);
      var next :=
        if member.s.pos == s.pos && Cur(toks, member.s) == Cur(toks, s) then Eat(toks, member.s).s
        else member.s;
      var members' := members + [GlobalStatement(member.stmt)];
      if Kind(toks, next) == EndOfFileToken then MembersResult(members', next)
      else
        PastToken(toks, s, next);
        var r := MembersLoop(toks, isGlobal, next, members');
        assert r.members[..|members|] == r.members[..|members'|][..|members|];
        r
  }
}
