/**
 * The recursive-descent part of the compiler's parser (LanguageParser.cs):
 * expressions by precedence climbing, names with a tentative template
 * argument list, argument lists, and the statements and global members
 * whose loops guard against making no progress.
 *
 * The parse functions read the buffered token stream `toks` (what the token
 * buffer of SyntaxParser hands out, index by index; past its end the lexer
 * keeps answering end-of-file) and thread the parser's state explicitly: the
 * position, the diagnostics added to the cached current token, the
 * expect-parenthesis flag and the pending diagnostics. The bracket stack's
 * top and the template-argument terminator state travel as a context that
 * each call restores on return, as the source does around its pushes.
 */
module LanguageParser {
  import opened Wrappers
  import opened SyntaxFacts
  import opened LexerSpec
  import SyntaxParser

  // ---------------------------------------------------------------------------
  // Parser state

  /**
   * `pos` is `_tokenOffset`; `added` the diagnostics put on the cached
   * current token (`_currentToken = AddDiagnostic(currentToken, ..)`);
   * `expectParen` is `_expectParenthesis`; `future` is `_futureDiagnostics`.
   */
  datatype PState = PState(pos: nat, added: seq<SyntaxDiagnostic>, expectParen: bool, future: seq<LexError>)

  /** The top of `_bracketStack` (None for the bottom entry) and whether a `>` ends a template argument list. */
  datatype Ctx = Ctx(closing: Option<SyntaxKind>, inTemplateArgs: bool)

  /** Statements and members are parsed with only the bottom of the bracket stack. */
  const TopLevel := Ctx(None, false)

  /** What the lexer hands out once the text is exhausted. */
  const EndOfFile := Token(EndOfFileToken, Some(""), NoValue, [], [], [])

  /** `Peek`: the buffered token at index `i`, end-of-file past the end. */
  function Tok(toks: seq<Token>, i: int): Token
  {
    if 0 <= i < |toks| then toks[i] else EndOfFile
  }

  function Kind(toks: seq<Token>, s: PState): SyntaxKind
  {
    Tok(toks, s.pos).kind
  }

  /** `currentToken`: the token at the position with the diagnostics added to the cached copy. */
  function Cur(toks: seq<Token>, s: PState): (t: Token)
    ensures t.kind == Kind(toks, s)
  {
    SyntaxParser.WithDiagnostics(Tok(toks, s.pos), s.added)
  }

  /** The buffered tokens not yet consumed. */
  function Remaining(toks: seq<Token>, s: PState): nat
  {
    if s.pos < |toks| then |toks| - s.pos else 0
  }

  /** `IsTerminator`: end of file, the closing bracket on top of the stack, or `>` inside template arguments. */
  predicate IsTerminator(ctx: Ctx, toks: seq<Token>, s: PState)
  {
    var k := Kind(toks, s);
    k == EndOfFileToken || ctx.closing == Some(k) || (ctx.inTemplateArgs && k == GreaterThanToken)
  }

  datatype Eaten = Eaten(token: Token, s: PState)

  /** `EatToken()`: the current token with the pending diagnostics placed on it; the position moves on. */
  function Eat(toks: seq<Token>, s: PState): (r: Eaten)
    ensures r.token.kind == Kind(toks, s) && r.token.text == Tok(toks, s.pos).text
    ensures r.s.pos == s.pos + 1 && r.s.expectParen == s.expectParen
  {
    var t := Cur(toks, s);
    Eaten(SyntaxParser.WithDiagnostics(t, SyntaxParser.PlacedOver(s.future, t)), PState(s.pos + 1, [], s.expectParen, []))
  }

  /**
   * `LanguageParser.Match(kind)`: the buffer's `Match`, with a close
   * parenthesis as the token wanted next while the flag is set.
   */
  function Match(toks: seq<Token>, s: PState, kind: SyntaxKind): (r: Eaten)
    ensures r.token.kind == kind
    ensures s.pos <= r.s.pos <= s.pos + 2 && r.s.expectParen == s.expectParen
    ensures Kind(toks, s) == kind ==> r.s.pos == s.pos + 1
    ensures r.s.pos == s.pos <==> Kind(toks, s) != kind && s.expectParen && Kind(toks, s) == CloseParenToken
    ensures r.s.pos == s.pos ==> r.token.IsMissing()
    ensures !r.token.IsMissing() && kind != EndOfFileToken ==> Remaining(toks, r.s) < Remaining(toks, s)
  {
    var nextWanted := if s.expectParen then Some(CloseParenToken) else None;
    var m := SyntaxParser.MatchResult(Cur(toks, s), Tok(toks, s.pos + 1), s.future, kind, nextWanted, true);
    Eaten(m.token, PState(s.pos + m.consumed, if m.consumed == 0 then s.added else [], s.expectParen, m.future))
  }

  /** `Reset` to a point taken at `pos`: the cached token is dropped; the flag and pending diagnostics stay as they are. */
  function ResetTo(s: PState, pos: nat): (r: PState)
    ensures r.pos == pos && r.added == [] && r.expectParen == s.expectParen && r.future == s.future
  {
    PState(pos, [], s.expectParen, s.future)
  }

  /** `NoTriviaBetween`: nothing trails the first token and nothing leads the second. */
  predicate NoTriviaBetween(t1: Token, t2: Token)
  {
    |TriviaListText(t1.trailing)| == 0 && |TriviaListText(t2.leading)| == 0
  }

  // ---------------------------------------------------------------------------
  // Syntax nodes

  datatype Expr =
    | Empty
    | Name(identifier: Token)
    | TemplateName(identifier: Token, templateArguments: ArgumentList)
    | Literal(token: Token)
    | Parenthesized(open: Token, inner: Expr, close: Token)
    | Unary(op: Token, operand: Expr)
    | Prefix(op: Token, operand: Expr)
    | Postfix(operand: Expr, op: Token)
    | Call(callee: Expr, arguments: ArgumentList)
    | Index(operand: Expr, open: Token, index: Expr, close: Token)
    | MemberAccess(operand: Expr, op: Token, name: Expr)
    | Binary(left: Expr, op: Token, right: Expr)
    | Ternary(condition: Expr, question: Token, center: Expr, colon: Token, right: Expr)
    | Assignment(left: Expr, op: Token, right: Expr)

  datatype Argument = Argument(name: Option<Token>, colon: Option<Token>, value: Expr)

  datatype ArgumentList = ArgumentList(open: Token, arguments: seq<Argument>, separators: seq<Token>, close: Token)

  /**
   * How tightly the top of an expression binds: assignment 1, the
   * conditional operator 2, a binary operator its precedence, prefix
   * operators 17, postfix and primary operators 18, anything closed 19.
   */
  function Prec(e: Expr): nat
  {
    match e
    case Assignment(_, _, _) => 1
    case Ternary(_, _, _, _, _) => 2
    case Binary(_, op, _) => BinaryPrecedence(op.kind)
    case Unary(_, _) => 17
    case Prefix(_, _) => 17
    case Postfix(_, _) => 18
    case Call(_, _) => 18
    case Index(_, _, _, _) => 18
    case MemberAccess(_, _, _) => 18
    case _ => 19
  }

  /**
   * The tree respects the operators' precedences: a binary operator's left
   * operand binds at least as tightly and its right operand strictly more
   * tightly (equal precedences nest to the left); a conditional operator's
   * condition is no conditional itself while its branches may be (they nest
   * to the right); prefix operands bind at the unary level or tighter;
   * postfix, call, index and member-access operands are primary.
   */
  predicate WellNested(e: Expr)
  {
    match e
    case Binary(l, op, r) =>
      0 < BinaryPrecedence(op.kind) <= Prec(l) && BinaryPrecedence(op.kind) < Prec(r) && WellNested(l) && WellNested(r)
    case Ternary(c, _, m, _, r) => 2 < Prec(c) && 2 <= Prec(m) && 2 <= Prec(r) && WellNested(c) && WellNested(m) && WellNested(r)
    case Assignment(l, _, r) => 2 <= Prec(l) && WellNested(l) && WellNested(r)
    case Unary(_, x) => 17 <= Prec(x) && WellNested(x)
    case Prefix(_, x) => 18 <= Prec(x) && WellNested(x)
    case Postfix(x, _) => 18 <= Prec(x) && WellNested(x)
    case Call(x, l) => 18 <= Prec(x) && WellNested(x) && (forall i :: 0 <= i < |l.arguments| ==> WellNested(l.arguments[i].value))
    case Index(x, _, i, _) => 18 <= Prec(x) && WellNested(x) && WellNested(i)
    case MemberAccess(x, _, n) => 18 <= Prec(x) && WellNested(x) && WellNested(n)
    case Parenthesized(_, i, _) => WellNested(i)
    case TemplateName(_, l) => forall i :: 0 <= i < |l.arguments| ==> WellNested(l.arguments[i].value)
    case _ => true
  }

  predicate WellNestedArguments(args: seq<Argument>)
  {
    forall i :: 0 <= i < |args| ==> WellNested(args[i].value)
  }

  /** Whether a token, its trivia or a token skipped into its trivia carries a diagnostic. */
  predicate TokenHasDiagnostics(t: Token)
  {
    |t.diagnostics| > 0 ||
    (exists i :: 0 <= i < |t.leading| && TriviaHasDiagnostics(t.leading[i])) ||
    (exists i :: 0 <= i < |t.trailing| && TriviaHasDiagnostics(t.trailing[i]))
  }

  predicate TriviaHasDiagnostics(tr: Trivia)
  {
    match tr
    case Trivia(_, _, ds) => |ds| > 0
    case SkippedTokens(tok) => TokenHasDiagnostics(tok)
  }

  /** `containsDiagnostics` of an expression: some token in it carries a diagnostic. */
  predicate ExprHasDiagnostics(e: Expr)
  {
    match e
    case Empty => false
    case Name(t) => TokenHasDiagnostics(t)
    case TemplateName(t, l) => TokenHasDiagnostics(t) || ListHasDiagnostics(l)
    case Literal(t) => TokenHasDiagnostics(t)
    case Parenthesized(o, i, c) => TokenHasDiagnostics(o) || ExprHasDiagnostics(i) || TokenHasDiagnostics(c)
    case Unary(op, x) => TokenHasDiagnostics(op) || ExprHasDiagnostics(x)
    case Prefix(op, x) => TokenHasDiagnostics(op) || ExprHasDiagnostics(x)
    case Postfix(x, op) => ExprHasDiagnostics(x) || TokenHasDiagnostics(op)
    case Call(x, l) => ExprHasDiagnostics(x) || ListHasDiagnostics(l)
    case Index(x, o, i, c) => ExprHasDiagnostics(x) || TokenHasDiagnostics(o) || ExprHasDiagnostics(i) || TokenHasDiagnostics(c)
    case MemberAccess(x, op, n) => ExprHasDiagnostics(x) || TokenHasDiagnostics(op) || ExprHasDiagnostics(n)
    case Binary(l, op, r) => ExprHasDiagnostics(l) || TokenHasDiagnostics(op) || ExprHasDiagnostics(r)
    case Ternary(c, q, m, k, r) =>
      ExprHasDiagnostics(c) || TokenHasDiagnostics(q) || ExprHasDiagnostics(m) || TokenHasDiagnostics(k) || ExprHasDiagnostics(r)
    case Assignment(l, op, r) => ExprHasDiagnostics(l) || TokenHasDiagnostics(op) || ExprHasDiagnostics(r)
  }

  predicate ListHasDiagnostics(l: ArgumentList)
  {
    TokenHasDiagnostics(l.open) || TokenHasDiagnostics(l.close) ||
    (exists i :: 0 <= i < |l.separators| && TokenHasDiagnostics(l.separators[i])) ||
    (exists i :: 0 <= i < |l.arguments| && ArgumentHasDiagnostics(l.arguments[i]))
  }

  predicate ArgumentHasDiagnostics(a: Argument)
  {
    (a.name.Some? && TokenHasDiagnostics(a.name.value)) || (a.colon.Some? && TokenHasDiagnostics(a.colon.value)) ||
    ExprHasDiagnostics(a.value)
  }

  // ---------------------------------------------------------------------------
  // Expressions

  datatype ExprResult = ExprResult(e: Expr, s: PState)

  /** A binary operator at the current position: its precedence and how many `>` tokens it joins. */
  datatype BinaryOperator = BinaryOperator(precedence: nat, tokens: nat)

  /**
   * The binary operator starting at the current token. Two (three) adjacent
   * `>` tokens with no trivia between them form one `>>` (`>>>`) operator,
   * which the lexer never produces on its own.
   */
  function NextBinary(toks: seq<Token>, s: PState): (r: BinaryOperator)
    ensures r.precedence == 0 || 3 <= r.precedence <= 14
    ensures 1 <= r.tokens <= 3
    ensures r.tokens == 1 ==> r.precedence == BinaryPrecedence(Kind(toks, s))
    ensures r.tokens == 2 ==> Kind(toks, s) == GreaterThanToken && r.precedence == BinaryPrecedence(GreaterThanGreaterThanToken)
    ensures r.tokens == 3 ==> Kind(toks, s) == GreaterThanToken && r.precedence == BinaryPrecedence(GreaterThanGreaterThanGreaterThanToken)
  {
    var t0, t1, t2 := Cur(toks, s), Tok(toks, s.pos + 1), Tok(toks, s.pos + 2);
    if t0.kind == GreaterThanToken && t1.kind == GreaterThanToken && NoTriviaBetween(t0, t1) then
      if t2.kind == GreaterThanToken && NoTriviaBetween(t1, t2) then
        BinaryOperator(BinaryPrecedence(GreaterThanGreaterThanGreaterThanToken), 3)
      else
        BinaryOperator(BinaryPrecedence(GreaterThanGreaterThanToken), 2)
    else
      assert BinaryPrecedence(t0.kind) == 0 || 3 <= BinaryPrecedence(t0.kind) <= 14 by { PrecedenceClasses(t0.kind, t0.kind); }
      BinaryOperator(BinaryPrecedence(t0.kind), 1)
  }

  /** `SyntaxFactory.Token(leading, kind, trailing)`: a token with the kind's fixed text and no diagnostics. */
  function FactoryToken(leading: seq<Trivia>, kind: SyntaxKind, trailing: seq<Trivia>): Token
  {
    Token(kind, Some(GetText(kind).GetOr("")), NoValue, leading, trailing, [])
  }

  /**
   * Eats the operator `NextBinary` found: one token as it is, or two (three)
   * `>` tokens joined into one `>>` (`>>>`) token carrying the first one's
   * leading and the last one's trailing trivia.
   */
  function EatOperator(toks: seq<Token>, s: PState): (r: Eaten)
    requires NextBinary(toks, s).precedence != 0
    ensures r.s.pos == s.pos + NextBinary(toks, s).tokens && r.s.expectParen == s.expectParen
    ensures BinaryPrecedence(r.token.kind) == NextBinary(toks, s).precedence
  {
    var count := NextBinary(toks, s).tokens;
    var first := Eat(toks, s);
    if count == 1 then first
    else if count == 2 then
      var second := Eat(toks, first.s);
      Eaten(FactoryToken(first.token.leading, GreaterThanGreaterThanToken, second.token.trailing), second.s)
    else
      var middle := Eat(toks, first.s);
      var last := Eat(toks, middle.s);
      Eaten(FactoryToken(first.token.leading, GreaterThanGreaterThanGreaterThanToken, last.token.trailing), last.s)
  }

  predicate IsAssignmentOperator(k: SyntaxKind)
  {
    k == EqualsToken || IsCompoundAssignment(k)
  }

  /** The binary loop has stopped: no binary operator binding more tightly than `parent`, or a terminator. */
  predicate BinaryStops(ctx: Ctx, toks: seq<Token>, parent: nat, s: PState)
  {
    var p := NextBinary(toks, s).precedence;
    p == 0 || p <= parent || IsTerminator(ctx, toks, s)
  }

  /** The conditional loop has stopped: no `?` binding at least as tightly as `parent`, or a terminator. */
  predicate TernaryStops(ctx: Ctx, toks: seq<Token>, parent: nat, s: PState)
  {
    var p := TernaryPrecedence(Kind(toks, s));
    p == 0 || p < parent || IsTerminator(ctx, toks, s)
  }

  /** `ParseExpression(allowEmpty)`: an empty expression at a `;` (reported unless allowed), else an assignment expression. */
  function ParseExpression(ctx: Ctx, toks: seq<Token>, allowEmpty: bool, s: PState): (r: ExprResult)
    ensures s.pos <= r.s.pos && (!s.expectParen ==> !r.s.expectParen)
    ensures WellNested(r.e)
    decreases Remaining(toks, s), 17
  {
    if Kind(toks, s) == SemicolonToken then
      var future := if allowEmpty then s.future else s.future + [ExpectedName("identifiername")];
      ExprResult(Empty, s.(future := future))
    else
      ParseAssignment(ctx, toks, s)
  }

  /** `ParseNonAssignmentExpression`: the flag is set while an operator expression is parsed and cleared after. */
  function ParseNonAssignment(ctx: Ctx, toks: seq<Token>, s: PState): (r: ExprResult)
    ensures s.pos <= r.s.pos && (!s.expectParen ==> !r.s.expectParen)
    ensures Kind(toks, s) != SemicolonToken ==> !r.s.expectParen
    ensures WellNested(r.e) && !r.e.Assignment?
    decreases Remaining(toks, s), 17
  {
    if Kind(toks, s) == SemicolonToken then ExprResult(Empty, s)
    else
      var value := ParseOperator(ctx, toks, 0, s.(expectParen := true));
      ExprResult(value.e, value.s.(expectParen := false))
  }

  /** `ParseAssignmentExpression`: assignment operators associate to the right. */
  function ParseAssignment(ctx: Ctx, toks: seq<Token>, s: PState): (r: ExprResult)
    ensures s.pos <= r.s.pos && (!s.expectParen ==> !r.s.expectParen)
    ensures WellNested(r.e)
    decreases Remaining(toks, s), 16
  {
    var left := ParseOperator(ctx, toks, 0, s);
    if IsAssignmentOperator(Kind(toks, left.s)) then
      var op := Eat(toks, left.s);
      var right := ParseAssignment(ctx, toks, op.s);
      ExprResult(Assignment(left.e, op.token, right.e), right.s)
    else
      left
  }

  /**
   * `ParseOperatorExpression(parentPrecedence)`: a prefix operator or a
   * primary expression, then binary operators binding more tightly than
   * `parent`, then conditional operators binding at least as tightly.
   */
  function ParseOperator(ctx: Ctx, toks: seq<Token>, parent: nat, s: PState): (r: ExprResult)
    ensures s.pos <= r.s.pos && (!s.expectParen ==> !r.s.expectParen)
    ensures WellNested(r.e) && 2 <= Prec(r.e)
    ensures parent <= 18 ==> parent <= Prec(r.e)
    ensures Prec(r.e) == parent ==> parent == 2 || 17 <= parent
    ensures BinaryStops(ctx, toks, parent, r.s) && TernaryStops(ctx, toks, parent, r.s)
    decreases Remaining(toks, s), 15
  {
    var left := ParseOperand(ctx, toks, parent, s);
    var binary := BinaryLoop(ctx, toks, parent, left.e, left.s);
    TernaryLoop(ctx, toks, parent, binary.e, binary.s)
  }

  /**
   * The start of `ParseOperatorExpression`: a prefix operator binding at
   * least as tightly as `parent` applies to a primary expression (`++`,
   * `--`) or to an operator expression at its own precedence; anything else
   * starts a primary expression.
   */
  function ParseOperand(ctx: Ctx, toks: seq<Token>, parent: nat, s: PState): (r: ExprResult)
    ensures s.pos <= r.s.pos && (!s.expectParen ==> !r.s.expectParen)
    ensures WellNested(r.e) && 17 <= Prec(r.e)
    ensures parent <= 18 ==> parent <= Prec(r.e)
    decreases Remaining(toks, s), 14
  {
    var u := UnaryPrecedence(Kind(toks, s));
    if u != 0 && u >= parent && !IsTerminator(ctx, toks, s) then
      var op := Eat(toks, s);
      if op.token.kind == PlusPlusToken || op.token.kind == MinusMinusToken then
        var operand := ParsePrimary(ctx, toks, op.s);
        ExprResult(Prefix(op.token, operand.e), operand.s)
      else
        var operand := ParseOperator(ctx, toks, u, op.s);
        ExprResult(Unary(op.token, operand.e), operand.s)
    else
      ParsePrimary(ctx, toks, s)
  }

  /** The binary-operator loop of `ParseOperatorExpression`: operators of equal precedence nest to the left. */
  function BinaryLoop(ctx: Ctx, toks: seq<Token>, parent: nat, left: Expr, s: PState): (r: ExprResult)
    requires WellNested(left) && 3 <= Prec(left)
    requires NextBinary(toks, s).precedence <= Prec(left) || IsTerminator(ctx, toks, s)
    ensures s.pos <= r.s.pos && (!s.expectParen ==> !r.s.expectParen)
    ensures WellNested(r.e) && 3 <= Prec(r.e)
    ensures r.e == left || parent < Prec(r.e) <= 14
    ensures BinaryStops(ctx, toks, parent, r.s)
    decreases Remaining(toks, s), 14
  {
    if BinaryStops(ctx, toks, parent, s) then ExprResult(left, s)
    else
      var binary := BinaryStep(ctx, toks, left, s);
      BinaryLoop(ctx, toks, parent, binary.e, binary.s)
  }

  /** One turn of the binary loop: the operator, then its right operand parsed at the operator's precedence. */
  function BinaryStep(ctx: Ctx, toks: seq<Token>, left: Expr, s: PState): (r: ExprResult)
    requires WellNested(left) && 0 < NextBinary(toks, s).precedence <= Prec(left) && !IsTerminator(ctx, toks, s)
    ensures s.pos < r.s.pos && (!s.expectParen ==> !r.s.expectParen)
    ensures r.e.Binary? && r.e.left == left && WellNested(r.e) && Prec(r.e) == NextBinary(toks, s).precedence
    ensures BinaryStops(ctx, toks, Prec(r.e), r.s)
    decreases Remaining(toks, s), 13
  {
    var op := EatOperator(toks, s);
    var right := ParseOperator(ctx, toks, NextBinary(toks, s).precedence, op.s);
    ExprResult(Binary(left, op.token, right.e), right.s)
  }

  /** The conditional-operator loop of `ParseOperatorExpression`. */
  function TernaryLoop(ctx: Ctx, toks: seq<Token>, parent: nat, left: Expr, s: PState): (r: ExprResult)
    requires WellNested(left) && 2 <= Prec(left)
    requires Prec(left) == 2 ==> TernaryStops(ctx, toks, parent, s)
    requires BinaryStops(ctx, toks, parent, s)
    ensures s.pos <= r.s.pos && (!s.expectParen ==> !r.s.expectParen)
    ensures WellNested(r.e) && 2 <= Prec(r.e)
    ensures r.e == left || (Prec(r.e) == 2 && parent <= 2)
    ensures BinaryStops(ctx, toks, parent, r.s) && TernaryStops(ctx, toks, parent, r.s)
    decreases Remaining(toks, s), 14
  {
    if TernaryStops(ctx, toks, parent, s) then ExprResult(left, s)
    else
      var ternary := TernaryStep(ctx, toks, left, s);
      TernaryLoop(ctx, toks, parent, ternary.e, ternary.s)
  }

  /**
   * One turn of the conditional loop: `?`, the center, the paired `:` and
   * the right operand, both operands parsed at the operator's own
   * precedence, so that a conditional nests to the right.
   */
  function TernaryStep(ctx: Ctx, toks: seq<Token>, left: Expr, s: PState): (r: ExprResult)
    requires WellNested(left) && 2 < Prec(left)
    requires Kind(toks, s) == QuestionToken && !IsTerminator(ctx, toks, s)
    ensures s.pos < r.s.pos && (!s.expectParen ==> !r.s.expectParen)
    ensures r.e.Ternary? && r.e.condition == left && WellNested(r.e)
    ensures BinaryStops(ctx, toks, 2, r.s) && TernaryStops(ctx, toks, 2, r.s)
    decreases Remaining(toks, s), 13
  {
    var question := Eat(toks, s);
    var center := ParseOperator(ctx, toks, TernaryPrecedence(QuestionToken), question.s);
    var colon := Match(toks, center.s, TernaryOperatorPair(question.token.kind).value);
    var right := ParseOperator(ctx, toks, TernaryPrecedence(QuestionToken), colon.s);
    ExprResult(Ternary(left, question.token, center.e, colon.token, right.e), right.s)
  }

  /** `ParsePrimaryExpression()`: a primary expression and the primary operators after it. */
  function ParsePrimary(ctx: Ctx, toks: seq<Token>, s: PState): (r: ExprResult)
    ensures s.pos <= r.s.pos && (!s.expectParen ==> !r.s.expectParen)
    ensures WellNested(r.e) && 18 <= Prec(r.e)
    decreases Remaining(toks, s), 13
  {
    var left := ParsePrimaryInternal(ctx, toks, s);
    PrimaryLoop(ctx, toks, 0, left.e, left.s)
  }

  /** `ParsePrimaryExpressionInternal`, for the primary expressions of this model. */
  function ParsePrimaryInternal(ctx: Ctx, toks: seq<Token>, s: PState): (r: ExprResult)
    ensures s.pos <= r.s.pos && (!s.expectParen ==> !r.s.expectParen)
    ensures WellNested(r.e) && Prec(r.e) == 19
    decreases Remaining(toks, s), 12
  {
    var k := Kind(toks, s);
    if k == OpenParenToken then ParseParenthesized(ctx, toks, s)
    else if k == TrueKeyword || k == FalseKeyword || k == NumericLiteralToken || k == StringLiteralToken || k == NullKeyword then
      var t := Match(toks, s, k);
      ExprResult(Literal(t.token), t.s)
    else
      ParseLastCaseName(ctx, toks, s)
  }

  /** `ParseParenthesizedExpression`: the close parenthesis is pushed on the bracket stack for the inner expression. */
  function ParseParenthesized(ctx: Ctx, toks: seq<Token>, s: PState): (r: ExprResult)
    requires Kind(toks, s) == OpenParenToken
    ensures s.pos < r.s.pos && (!s.expectParen ==> !r.s.expectParen)
    ensures r.e.Parenthesized? && WellNested(r.e)
    decreases Remaining(toks, s), 11
  {
    var open := Match(toks, s, OpenParenToken);
    var inner := ParseExpression(ctx.(closing := Some(CloseParenToken)), toks, false, open.s);
    var close := Match(toks, inner.s, CloseParenToken);
    ExprResult(Parenthesized(open.token, inner.e, close.token), close.s)
  }

  /**
   * `ParseLastCaseName`: a token that starts no expression gets an
   * "expected expression" diagnostic and stays current; a missing
   * identifier stands for the expression.
   */
  function ParseLastCaseName(ctx: Ctx, toks: seq<Token>, s: PState): (r: ExprResult)
    ensures s.pos <= r.s.pos && (!s.expectParen ==> !r.s.expectParen)
    ensures (r.e.Name? || r.e.TemplateName?) && WellNested(r.e)
    ensures Kind(toks, s) != IdentifierToken ==> r.s.pos == s.pos && r.e == Name(SyntaxParser.Missing(IdentifierToken))
    decreases Remaining(toks, s), 11
  {
    if Kind(toks, s) != IdentifierToken then
      var t := Cur(toks, s);
      var d := SyntaxDiagnostic(ExpectedName("expression"), SyntaxParser.LeadingWidth(t), SyntaxParser.Width(t));
      ExprResult(Name(SyntaxParser.Missing(IdentifierToken)), s.(added := s.added + [d]))
    else
      ParseSimpleName(ctx, toks, s)
  }

  /**
   * `ParseSimpleName`: an identifier, and after it a template argument list
   * when a `<` follows. If that list holds any diagnostic the parser resets
   * to just after the identifier and the name stands alone.
   */
  function ParseSimpleName(ctx: Ctx, toks: seq<Token>, s: PState): (r: ExprResult)
    ensures s.pos <= r.s.pos && (!s.expectParen ==> !r.s.expectParen)
    ensures (r.e.Name? || r.e.TemplateName?) && WellNested(r.e)
    ensures r.e.TemplateName? ==> !ListHasDiagnostics(r.e.templateArguments)
    ensures r.e.Name? ==> r.s.pos <= Match(toks, s, IdentifierToken).s.pos
    decreases Remaining(toks, s), 10
  {
    var id := Match(toks, s, IdentifierToken);
    if id.token.IsMissing() || Kind(toks, id.s) != LessThanToken then
      ExprResult(Name(id.token), id.s)
    else
      var list := ParseTemplateArgumentList(ctx, toks, id.s);
      if ListHasDiagnostics(list.list) then
        ExprResult(Name(id.token), ResetTo(list.s, id.s.pos))
      else
        ExprResult(TemplateName(id.token, list.list), list.s)
  }

  datatype ListResult = ListResult(list: ArgumentList, s: PState)

  /**
   * `ParseTemplateArgumentList`: `<`, the arguments with `>` on the bracket
   * stack and as a terminator, then `>`.
   */
  function ParseTemplateArgumentList(ctx: Ctx, toks: seq<Token>, s: PState): (r: ListResult)
    requires Kind(toks, s) == LessThanToken
    ensures s.pos < r.s.pos && (!s.expectParen ==> !r.s.expectParen)
    ensures WellNestedArguments(r.list.arguments)
    decreases Remaining(toks, s), 0
  {
    var less := Match(toks, s, LessThanToken);
    var args := ParseArguments(Ctx(Some(GreaterThanToken), true), toks, GreaterThanToken, less.s);
    var greater := Match(toks, args.s, GreaterThanToken);
    ListResult(ArgumentList(less.token, args.arguments, args.separators, greater.token), greater.s)
  }

  /** `ParseArgumentList`: `(`, the arguments, `)`. */
  function ParseArgumentList(ctx: Ctx, toks: seq<Token>, s: PState): (r: ListResult)
    requires Kind(toks, s) == OpenParenToken
    ensures s.pos < r.s.pos && (!s.expectParen ==> !r.s.expectParen)
    ensures WellNestedArguments(r.list.arguments)
    decreases Remaining(toks, s), 0
  {
    var open := Match(toks, s, OpenParenToken);
    var args := ParseArguments(ctx, toks, CloseParenToken, open.s);
    var close := Match(toks, args.s, CloseParenToken);
    ListResult(ArgumentList(open.token, args.arguments, args.separators, close.token), close.s)
  }

  datatype ArgumentsResult = ArgumentsResult(arguments: seq<Argument>, separators: seq<Token>, s: PState)

  /** `ParseArguments(closeBracket)`: nothing at all before a `)`, else the argument loop. */
  function ParseArguments(ctx: Ctx, toks: seq<Token>, close: SyntaxKind, s: PState): (r: ArgumentsResult)
    ensures s.pos <= r.s.pos && (!s.expectParen ==> !r.s.expectParen)
    ensures WellNestedArguments(r.arguments)
    ensures |r.separators| <= |r.arguments| <= |r.separators| + 1
    ensures Kind(toks, s) != CloseParenToken && Kind(toks, s) != EndOfFileToken ==> 0 < |r.arguments|
    decreases Remaining(toks, s), 20
  {
    if Kind(toks, s) == CloseParenToken then ArgumentsResult([], [], s)
    else ArgumentsLoop(ctx, toks, close, s, [], [])
  }

  /**
   * The loop of `ParseArguments`: an argument (empty before a comma or the
   * closing bracket), and another one only after a comma.
   */
  function ArgumentsLoop(ctx: Ctx, toks: seq<Token>, close: SyntaxKind, s: PState,
                         arguments: seq<Argument>, separators: seq<Token>): (r: ArgumentsResult)
    requires WellNestedArguments(arguments) && |arguments| == |separators|
    ensures s.pos <= r.s.pos && (!s.expectParen ==> !r.s.expectParen)
    ensures WellNestedArguments(r.arguments)
    ensures Kind(toks, s) == EndOfFileToken ==> r.arguments == arguments && r.separators == separators
    ensures |r.separators| <= |r.arguments| <= |r.separators| + 1
    ensures Kind(toks, s) != EndOfFileToken ==> |arguments| < |r.arguments|
    ensures Kind(toks, r.s) != CommaToken
    decreases Remaining(toks, s), 19
  {
    if Kind(toks, s) == EndOfFileToken then ArgumentsResult(arguments, separators, s)
    else
      var arg :=
        if Kind(toks, s) != CommaToken && Kind(toks, s) != close then ParseArgument(ctx, toks, s)
        else ArgumentResult(Argument(None, None, Empty), s);
      if Kind(toks, arg.s) == CommaToken then
        var comma := Eat(toks, arg.s);
        ArgumentsLoop(ctx, toks, close, comma.s, arguments + [arg.argument], separators + [comma.token])
      else
        ArgumentsResult(arguments + [arg.argument], separators, arg.s)
  }

  datatype ArgumentResult = ArgumentResult(argument: Argument, s: PState)

  /**
   * `ParseArgument`: an optional `name:`, then an empty expression before a
   * comma or `)`, else a non-assignment expression.
   */
  function ParseArgument(ctx: Ctx, toks: seq<Token>, s: PState): (r: ArgumentResult)
    ensures s.pos <= r.s.pos && (!s.expectParen ==> !r.s.expectParen)
    ensures WellNested(r.argument.value)
    decreases Remaining(toks, s), 18
  {
    var named := Kind(toks, s) == IdentifierToken && Tok(toks, s.pos + 1).kind == ColonToken;
    var name := if named then Some(Eat(toks, s)) else None;
    var colon := if named then Some(Match(toks, name.value.s, ColonToken)) else None;
    var s1 := if named then colon.value.s else s;
    var value :=
      if Kind(toks, s1) == CommaToken || Kind(toks, s1) == CloseParenToken then ExprResult(Empty, s1)
      else ParseNonAssignment(ctx, toks, s1);
    var nameToken := if named then Some(name.value.token) else None;
    var colonToken := if named then Some(colon.value.token) else None;
    ArgumentResult(Argument(nameToken, colonToken, value.e), value.s)
  }

  /**
   * The primary-operator loop of `ParsePrimaryExpression(parentPrecedence,
   * left)`. When an operator consumed nothing (a `typeof` after an
   * expression) the loop eats the token so that it makes progress.
   */
  function PrimaryLoop(ctx: Ctx, toks: seq<Token>, parent: nat, left: Expr, s: PState): (r: ExprResult)
    requires WellNested(left) && 18 <= Prec(left)
    ensures s.pos <= r.s.pos && (!s.expectParen ==> !r.s.expectParen)
    ensures WellNested(r.e) && 18 <= Prec(r.e)
    ensures r.s == s || s.pos < r.s.pos
    ensures 18 <= parent ==> r == ExprResult(left, s)
    decreases Remaining(toks, s), 12, if parent < 18 then 18 - parent else 0
  {
    var p := PrimaryPrecedence(Kind(toks, s));
    if p == 0 || p <= parent then ExprResult(left, s)
    else
      var applied := PrimaryOperator(ctx, toks, left, s);
      var nested := PrimaryLoop(ctx, toks, p, applied.e, applied.s);
      var next := if nested.s.pos == s.pos && Cur(toks, nested.s) == Cur(toks, s) then Eat(toks, nested.s).s else nested.s;
      PrimaryLoop(ctx, toks, parent, nested.e, next)
  }

  /** `ParseCorrectPrimaryOperator`: a call, an index, a member access or a postfix operator, by the current token. */
  function PrimaryOperator(ctx: Ctx, toks: seq<Token>, left: Expr, s: PState): (r: ExprResult)
    requires WellNested(left) && 18 <= Prec(left)
    ensures s.pos <= r.s.pos && (!s.expectParen ==> !r.s.expectParen)
    ensures WellNested(r.e) && 18 <= Prec(r.e)
    ensures r.s == s || s.pos < r.s.pos
    decreases Remaining(toks, s), 11
  {
    var k := Kind(toks, s);
    if k == OpenParenToken then
      var list := ParseArgumentList(ctx, toks, s);
      ExprResult(Call(left, list.list), list.s)
    else if k == OpenBracketToken || k == QuestionOpenBracketToken then ParseIndex(ctx, toks, left, s)
    else if k == PeriodToken || k == QuestionPeriodToken then ParseMemberAccess(ctx, toks, left, s)
    else if k == MinusMinusToken || k == PlusPlusToken || k == ExclamationToken then
      var op := Eat(toks, s);
      ExprResult(Postfix(left, op.token), op.s)
    else
      ExprResult(left, s)
  }

  /** `ParseIndexExpression`: the close bracket is pushed on the bracket stack for the index. */
  function ParseIndex(ctx: Ctx, toks: seq<Token>, left: Expr, s: PState): (r: ExprResult)
    requires WellNested(left) && 18 <= Prec(left)
    requires Kind(toks, s) == OpenBracketToken || Kind(toks, s) == QuestionOpenBracketToken
    ensures s.pos < r.s.pos && (!s.expectParen ==> !r.s.expectParen)
    ensures r.e.Index? && WellNested(r.e)
    decreases Remaining(toks, s), 0
  {
    var open := Eat(toks, s);
    var index := ParseExpression(ctx.(closing := Some(CloseBracketToken)), toks, false, open.s);
    var close := Match(toks, index.s, CloseBracketToken);
    ExprResult(Index(left, open.token, index.e, close.token), close.s)
  }

  /** `ParseMemberAccessExpression`: the operator, then a simple name. */
  function ParseMemberAccess(ctx: Ctx, toks: seq<Token>, left: Expr, s: PState): (r: ExprResult)
    requires WellNested(left) && 18 <= Prec(left)
    requires Kind(toks, s) == PeriodToken || Kind(toks, s) == QuestionPeriodToken
    ensures s.pos < r.s.pos && (!s.expectParen ==> !r.s.expectParen)
    ensures r.e.MemberAccess? && WellNested(r.e)
    decreases Remaining(toks, s), 0
  {
    var op := Eat(toks, s);
    var name := ParseSimpleName(ctx, toks, op.s);
    ExprResult(MemberAccess(left, op.token, name.e), name.s)
  }
}
