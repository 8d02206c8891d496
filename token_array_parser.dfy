/**
 * The compiler's older, self-contained parser (Buckle/CodeAnalysis/Parser/Parser.cs).
 * Its constructor drains the lexer into an array of tokens up front. Parsing
 * then moves a position over that array and pushes diagnostics onto a queue.
 * The syntax nodes and their precedence discipline are shared with
 * LanguageParser.
 */
module TokenArrayParser {
  import opened Wrappers
  import opened SyntaxFacts
  import opened LexerSpec
  import SyntaxParser
  import LanguageParser

  type Expr = LanguageParser.Expr

  /** A diagnostic on the diagnostics queue, located at the index of the token it was reported at. */
  datatype Diagnostic = Diagnostic(error: LexError, at: nat)

  // ---------------------------------------------------------------------------
  // The constructor's drain

  /** The shape of the drained array: one end-of-file token and only at the end, and no bad token. */
  predicate StreamShape(ts: seq<Token>)
  {
    |ts| > 0 && ts[|ts| - 1].kind == EndOfFileToken &&
    (forall k :: 0 <= k < |ts| - 1 ==> ts[k].kind != EndOfFileToken) &&
    (forall k :: 0 <= k < |ts| ==> ts[k].kind != BadToken)
  }

  /** A real token with the bad tokens skipped before it put in front of its leading trivia. */
  function Attached(bad: seq<Token>, t: Token): (r: Token)
    ensures r.kind == t.kind && r.text == t.text && r.trailing == t.trailing
    ensures r.leading == SkippedTrivia(bad) + t.leading
  {
    if bad == [] then t else t.(leading := SkippedTrivia(bad) + t.leading)
  }

  /**
   * What the drain keeps of `lexed[i..]` when `bad` holds the bad tokens met
   * since the last token kept: every other token, with those bad tokens
   * attached, up to and including the first end-of-file token.
   */
  function Drained(lexed: seq<Token>, i: nat, bad: seq<Token>): seq<Token>
    decreases |lexed| - i
  {
    if i >= |lexed| then []
    else if lexed[i].kind == BadToken then Drained(lexed, i + 1, bad + [lexed[i]])
    else if lexed[i].kind == EndOfFileToken then [Attached(bad, lexed[i])]
    else [Attached(bad, lexed[i])] + Drained(lexed, i + 1, [])
  }

  /** When an end-of-file token lies ahead, the drained array has the shape the parser relies on. */
  lemma {:induction false} DrainedShape(lexed: seq<Token>, i: nat, bad: seq<Token>, eof: nat)
    requires i <= eof < |lexed| && lexed[eof].kind == EndOfFileToken
    ensures StreamShape(Drained(lexed, i, bad))
    decreases |lexed| - i
  {
    if lexed[i].kind == BadToken {
      DrainedShape(lexed, i + 1, bad + [lexed[i]], eof);
    } else if lexed[i].kind != EndOfFileToken {
      DrainedShape(lexed, i + 1, [], eof);
      var rest := Drained(lexed, i + 1, []);
      assert Drained(lexed, i, bad) == [Attached(bad, lexed[i])] + rest;
    }
  }

  /** The drain loses no real token: what it keeps, kind by kind, is `lexed` without its bad tokens, up to the first end of file. */
  function RealKinds(lexed: seq<Token>, i: nat): seq<SyntaxKind>
    decreases |lexed| - i
  {
    if i >= |lexed| then []
    else if lexed[i].kind == BadToken then RealKinds(lexed, i + 1)
    else if lexed[i].kind == EndOfFileToken then [EndOfFileToken]
    else [lexed[i].kind] + RealKinds(lexed, i + 1)
  }

  function Kinds(ts: seq<Token>): seq<SyntaxKind>
  {
    seq(|ts|, k requires 0 <= k < |ts| => ts[k].kind)
  }

  lemma {:induction false} DrainedKinds(lexed: seq<Token>, i: nat, bad: seq<Token>)
    ensures Kinds(Drained(lexed, i, bad)) == RealKinds(lexed, i)
    decreases |lexed| - i
  {
    if i < |lexed| {
      if lexed[i].kind == BadToken {
        DrainedKinds(lexed, i + 1, bad + [lexed[i]]);
      } else if lexed[i].kind != EndOfFileToken {
        DrainedKinds(lexed, i + 1, []);
        var rest := Drained(lexed, i + 1, []);
        assert Kinds([Attached(bad, lexed[i])] + rest) == [lexed[i].kind] + Kinds(rest);
      }
    }
  }

  /** The assignment operators the older parser accepts: `=` and the compound ones from `&=` to `??=`. */
  predicate IsAssignmentOperator(k: SyntaxKind)
  {
    k == EqualsToken || AmpersandEqualsToken <= k <= QuestionQuestionEqualsToken
  }

  /** The tokens a literal expression starts with. */
  predicate IsLiteralStart(k: SyntaxKind)
  {
    k == TrueKeyword || k == FalseKeyword || k == NumericLiteralToken || k == StringLiteralToken || k == NullKeyword
  }

  /** The tokens a primary expression of the older parser starts with; on any other the name is fabricated. */
  predicate PrimaryStart(k: SyntaxKind)
  {
    k == OpenParenToken || IsLiteralStart(k) || k == IdentifierToken
  }

  /** A binary node over operands that bind tightly enough is well nested, at its operator's precedence. */
  lemma BinaryNode(left: Expr, op: Token, right: Expr)
    requires LanguageParser.WellNested(left) && LanguageParser.WellNested(right)
    requires 0 < BinaryPrecedence(op.kind) <= LanguageParser.Prec(left) && BinaryPrecedence(op.kind) < LanguageParser.Prec(right)
    ensures LanguageParser.WellNested(LanguageParser.Binary(left, op, right))
    ensures LanguageParser.Prec(LanguageParser.Binary(left, op, right)) == BinaryPrecedence(op.kind)
  {
  }

  /** A conditional node whose condition binds more tightly than `?:` is well nested, at precedence 2. */
  lemma TernaryNode(condition: Expr, question: Token, center: Expr, colon: Token, right: Expr)
    requires LanguageParser.WellNested(condition) && LanguageParser.WellNested(center) && LanguageParser.WellNested(right)
    requires 2 < LanguageParser.Prec(condition) && 2 <= LanguageParser.Prec(center) && 2 <= LanguageParser.Prec(right)
    ensures LanguageParser.WellNested(LanguageParser.Ternary(condition, question, center, colon, right))
    ensures LanguageParser.Prec(LanguageParser.Ternary(condition, question, center, colon, right)) == 2
  {
  }

  /** The outcome of `Match` decided from the current token and the one after it. */
  datatype MatchStep = MatchStep(token: Token, advance: nat, pushed: Option<LexError>)

  /**
   * `Match`: the expected kind is consumed. Otherwise a diagnostic is pushed
   * and either nothing is consumed (the current token is the one wanted next),
   * or the current token is skipped and a missing token stands in, or the
   * current token is skipped and the following one, of the expected kind, is taken.
   */
  function MatchStepOf(current: Token, next: Token, kind: SyntaxKind, wanted: Option<SyntaxKind>): (r: MatchStep)
    ensures r.token.kind == kind
    ensures r.pushed.None? <==> current.kind == kind
    ensures r.advance <= 2
    ensures current.kind == kind ==> r.advance == 1 && r.token == current
    ensures r.advance == 0 <==> current.kind != kind && wanted == Some(current.kind)
    ensures r.advance != 1 ==> r.pushed.Some?
    ensures r.advance == 2 ==> r.token == next
  {
    if current.kind == kind then MatchStep(current, 1, None)
    else if wanted == Some(current.kind) then MatchStep(SyntaxParser.Missing(kind), 0, Some(ExpectedToken(kind)))
    else if next.kind != kind then MatchStep(SyntaxParser.Missing(kind), 1, Some(UnexpectedToken(current.kind, Some(kind))))
    else MatchStep(next, 2, Some(UnexpectedToken(current.kind, None)))
  }

  /** The queue after pushing what a step reports at token index `at`. */
  function PushedOnto(ds: seq<Diagnostic>, pushed: Option<LexError>, at: nat): (r: seq<Diagnostic>)
    ensures ds <= r && |r| == |ds| + (if pushed.Some? then 1 else 0)
  {
    match pushed
    case None => ds
    case Some(e) => ds + [Diagnostic(e, at)]
  }

  // ---------------------------------------------------------------------------
  // The parser

  class Parser {
    /** `_tokens`: the drained token array, fixed after construction. */
    const tokens: seq<Token>
    /** `_position`. */
    var position: nat
    /** `_expectParenthesis`. */
    var expectParen: bool
    /** The parser's diagnostics queue. */
    var diagnostics: seq<Diagnostic>

    predicate Valid()
    {
      StreamShape(tokens)
    }

    /**
     * Drains the lexer's output `lexed`, the tokens it hands out one call
     * after another: bad tokens are set aside and attached as skipped trivia
     * to the next real token, and draining stops after the end-of-file token.
     * The diagnostics the lexer reported while draining, `lexerDiagnostics`,
     * are then moved onto the parser's queue.
     */
    constructor (lexed: seq<Token>, lexerDiagnostics: seq<Diagnostic>)
      requires exists j :: 0 <= j < |lexed| && lexed[j].kind == EndOfFileToken
      ensures tokens == Drained(lexed, 0, []) && Valid()
      ensures position == 0 && !expectParen && diagnostics == lexerDiagnostics
    {
      ghost var eof :| 0 <= eof < |lexed| && lexed[eof].kind == EndOfFileToken;
      var kept: seq<Token> := [];
      var bad: seq<Token> := [];
      var i := 0;
      var done := false;
      while !done
        invariant i <= |lexed|
        invariant !done ==> i <= eof && kept + Drained(lexed, i, bad) == Drained(lexed, 0, [])
        invariant done ==> kept == Drained(lexed, 0, [])
        decreases |lexed| - i
      {
        var token := lexed[i];
        i := i + 1;
        if token.kind == BadToken {
          bad := bad + [token];
        } else {
          kept := kept + [Attached(bad, token)];
          bad := [];
          done := token.kind == EndOfFileToken;
        }
      }
      DrainedShape(lexed, 0, [], eof);
      tokens := kept;
      position := 0;
      expectParen := false;
      diagnostics := lexerDiagnostics;
    }

    /** `Peek(offset)`: past the end the end-of-file token, before the start the first token. */
    function Peek(offset: int): (t: Token)
      requires Valid()
      reads this
      ensures t.kind != BadToken
      ensures 0 <= position + offset ==> (t.kind == EndOfFileToken <==> position + offset >= |tokens| - 1)
      ensures position + offset >= |tokens| ==> t == tokens[|tokens| - 1]
      ensures position + offset < 0 ==> t == tokens[0]
    {
      var index := position + offset;
      if index >= |tokens| then tokens[|tokens| - 1]
      else if index < 0 then tokens[0]
      else tokens[index]
    }

    /** The index of the current token, where diagnostics are located. */
    function Location(): (at: nat)
      requires Valid()
      reads this
      ensures at < |tokens| && Peek(0) == tokens[at]
    {
      if position < |tokens| then position else |tokens| - 1
    }

    /** The tokens not yet consumed; the measure that makes parsing terminate. */
    function Remaining(): nat
      reads this
    {
      if position < |tokens| then |tokens| - position else 0
    }

    /** `Next`: the current token; the position moves on by one. */
    method Next() returns (t: Token)
      requires Valid()
      modifies this`position
      ensures t == old(Peek(0)) && position == old(position) + 1
      ensures t.kind != EndOfFileToken ==> Remaining() < old(Remaining())
    {
      t := Peek(0);
      position := position + 1;
    }

    /** `Match(kind, nextWanted)`; a close parenthesis is wanted next while `expectParen` is set. */
    method Match(kind: SyntaxKind, nextWanted: Option<SyntaxKind>) returns (t: Token)
      requires Valid()
      modifies this`position, this`diagnostics
      ensures var m := MatchStepOf(old(Peek(0)), old(Peek(1)), kind, if nextWanted.None? && expectParen then Some(CloseParenToken) else nextWanted);
        t == m.token && position == old(position) + m.advance && diagnostics == PushedOnto(old(diagnostics), m.pushed, old(Location()))
    {
      var wanted := nextWanted;
      if wanted.None? && expectParen {
        wanted := Some(CloseParenToken);
      }
      var current := Peek(0);
      if current.kind == kind {
        t := Next();
        return;
      }
      if wanted == Some(current.kind) {
        diagnostics := diagnostics + [Diagnostic(ExpectedToken(kind), Location())];
        t := SyntaxParser.Missing(kind);
        return;
      }
      if Peek(1).kind != kind {
        diagnostics := diagnostics + [Diagnostic(UnexpectedToken(current.kind, Some(kind)), Location())];
        position := position + 1;
        t := SyntaxParser.Missing(kind);
        return;
      }
      diagnostics := diagnostics + [Diagnostic(UnexpectedToken(current.kind, None), Location())];
      position := position + 1;
      t := Peek(0);
      position := position + 1;
    }

    /** `ParseExpression`: an empty expression before `;`, an assignment expression otherwise. */
    method ParseExpression() returns (e: Expr)
      requires Valid()
      modifies this`position, this`diagnostics
      ensures old(position) <= position && old(diagnostics) <= diagnostics
      ensures LanguageParser.WellNested(e)
      decreases Remaining(), 4
    {
      if Peek(0).kind == SemicolonToken {
        e := LanguageParser.Empty;
      } else {
        e := ParseAssignment();
      }
    }

    /** `ParseAssignmentExpression`: an operator expression, and after an assignment operator the right-associated rest. */
    method ParseAssignment() returns (e: Expr)
      requires Valid()
      modifies this`position, this`diagnostics
      ensures old(position) <= position && old(diagnostics) <= diagnostics
      ensures LanguageParser.WellNested(e)
      ensures e.Assignment? ==> IsAssignmentOperator(e.op.kind)
      decreases Remaining(), 3
    {
      e := ParseOperator(0);
      if IsAssignmentOperator(Peek(0).kind) {
        var op := Next();
        var right := ParseAssignment();
        e := LanguageParser.Assignment(e, op, right);
      }
    }

    /**
     * The start of `ParseOperatorExpression(parent)`: a prefix or unary
     * operator when it binds at least as tightly as `parent`, else a primary
     * expression.
     */
    method ParseOperand(parent: nat) returns (e: Expr)
      requires Valid() && parent <= 17
      modifies this`position, this`diagnostics
      ensures old(position) <= position && old(diagnostics) <= diagnostics
      ensures LanguageParser.WellNested(e) && 17 <= LanguageParser.Prec(e)
      ensures (e.Unary? || e.Prefix?) <==> UnaryPrecedence(old(Peek(0).kind)) != 0 && UnaryPrecedence(old(Peek(0).kind)) >= parent
      ensures e.Prefix? ==> e.op.kind == PlusPlusToken || e.op.kind == MinusMinusToken
      ensures e.Unary? ==> e.op.kind != PlusPlusToken && e.op.kind != MinusMinusToken
      decreases Remaining(), 1
    {
      var unary := UnaryPrecedence(Peek(0).kind);
      if unary != 0 && unary >= parent {
        var op := Next();
        if op.kind == PlusPlusToken || op.kind == MinusMinusToken {
          var operand := ParsePrimary();
          e := LanguageParser.Prefix(op, operand);
        } else {
          var operand := ParseOperator(unary);
          e := LanguageParser.Unary(op, operand);
        }
      } else {
        e := ParsePrimary();
      }
    }

    /**
     * `ParseOperatorExpression(parent)`: precedence climbing. A binary
     * operator is taken while it binds more tightly than `parent`, so equal
     * precedences associate to the left; a conditional operator while it
     * binds at least as tightly, so it associates to the right.
     */
    method ParseOperator(parent: nat) returns (e: Expr)
      requires Valid() && parent <= 17
      modifies this`position, this`diagnostics
      ensures old(position) <= position && old(diagnostics) <= diagnostics
      ensures LanguageParser.WellNested(e) && 2 <= LanguageParser.Prec(e)
      ensures parent <= LanguageParser.Prec(e)
      ensures LanguageParser.Prec(e) == parent ==> parent == 2 || parent == 17
      ensures BinaryPrecedence(Peek(0).kind) == 0 || BinaryPrecedence(Peek(0).kind) <= parent
      ensures TernaryPrecedence(Peek(0).kind) == 0 || TernaryPrecedence(Peek(0).kind) < parent
      decreases Remaining(), 2
    {
      e := ParseOperand(parent);
      PrecedenceClasses(Peek(0).kind, Peek(0).kind);
      e := BinaryLoop(parent, e);
      e := TernaryLoop(parent, e);
    }

    /** The binary loop of `ParseOperatorExpression(parent)`: it stops at an operator binding no more tightly than `parent`. */
    method BinaryLoop(parent: nat, left: Expr) returns (e: Expr)
      requires Valid() && parent <= 17 && LanguageParser.WellNested(left) && 3 <= LanguageParser.Prec(left)
      requires parent <= LanguageParser.Prec(left)
      requires LanguageParser.Prec(left) == parent ==> parent == 17
      requires BinaryPrecedence(Peek(0).kind) <= LanguageParser.Prec(left)
      modifies this`position, this`diagnostics
      ensures old(position) <= position && old(diagnostics) <= diagnostics
      ensures LanguageParser.WellNested(e) && 3 <= LanguageParser.Prec(e)
      ensures parent <= LanguageParser.Prec(e)
      ensures LanguageParser.Prec(e) == parent ==> parent == 17
      ensures e == left || (e.Binary? && parent < BinaryPrecedence(e.op.kind))
      ensures BinaryPrecedence(Peek(0).kind) == 0 || BinaryPrecedence(Peek(0).kind) <= parent
      decreases Remaining(), 1
    {
      e := left;
      while true
        invariant Valid() && old(position) <= position && old(diagnostics) <= diagnostics
        invariant LanguageParser.WellNested(e) && 3 <= LanguageParser.Prec(e)
        invariant parent <= LanguageParser.Prec(e)
        invariant LanguageParser.Prec(e) == parent ==> parent == 17
        invariant e == left || (e.Binary? && parent < BinaryPrecedence(e.op.kind))
        invariant BinaryPrecedence(Peek(0).kind) <= LanguageParser.Prec(e)
        decreases Remaining()
      {
        var precedence := BinaryPrecedence(Peek(0).kind);
        if precedence == 0 || precedence <= parent {
          break;
        }
        var op := Next();
        var right := ParseOperator(precedence);
        BinaryNode(e, op, right);
        e := LanguageParser.Binary(e, op, right);
      }
    }

    /** The conditional-operator loop of `ParseOperatorExpression(parent)`: a `?` is taken while it binds at least as tightly as `parent`. */
    method TernaryLoop(parent: nat, left: Expr) returns (e: Expr)
      requires Valid() && parent <= 17 && LanguageParser.WellNested(left) && 3 <= LanguageParser.Prec(left)
      requires parent <= LanguageParser.Prec(left)
      requires LanguageParser.Prec(left) == parent ==> parent == 17
      requires BinaryPrecedence(Peek(0).kind) == 0 || BinaryPrecedence(Peek(0).kind) <= parent
      modifies this`position, this`diagnostics
      ensures old(position) <= position && old(diagnostics) <= diagnostics
      ensures LanguageParser.WellNested(e) && 2 <= LanguageParser.Prec(e)
      ensures parent <= LanguageParser.Prec(e)
      ensures LanguageParser.Prec(e) == parent ==> parent == 2 || parent == 17
      ensures e == left || (e.Ternary? && e.condition == left && parent <= 2)
      ensures BinaryPrecedence(Peek(0).kind) == 0 || BinaryPrecedence(Peek(0).kind) <= parent
      ensures TernaryPrecedence(Peek(0).kind) == 0 || TernaryPrecedence(Peek(0).kind) < parent
      decreases Remaining(), 1
    {
      e := left;
      while true
        invariant Valid() && old(position) <= position && old(diagnostics) <= diagnostics
        invariant e == left || (e.Ternary? && e.condition == left && parent <= 2 && TernaryPrecedence(Peek(0).kind) == 0)
        invariant BinaryPrecedence(Peek(0).kind) == 0 || BinaryPrecedence(Peek(0).kind) <= parent
        invariant LanguageParser.WellNested(e)
        decreases Remaining()
      {
        var precedence := TernaryPrecedence(Peek(0).kind);
        if precedence == 0 || precedence < parent {
          break;
        }
        var question := Next();
        var center := ParseOperator(precedence);
        var colon := Match(ColonToken, None);
        var right := ParseOperator(precedence);
        TernaryNode(e, question, center, colon, right);
        PrecedenceClasses(Peek(0).kind, QuestionToken);
        e := LanguageParser.Ternary(e, question, center, colon, right);
      }
    }

    /**
     * `ParsePrimaryExpressionInternal`: a parenthesized expression, a
     * literal, or else a name; a name is fabricated, with a diagnostic, when
     * the current token is no identifier.
     */
    method ParsePrimary() returns (e: Expr)
      requires Valid()
      modifies this`position, this`diagnostics
      ensures old(position) <= position && old(diagnostics) <= diagnostics
      ensures LanguageParser.WellNested(e) && LanguageParser.Prec(e) == 19
      ensures PrimaryStart(old(Peek(0).kind)) || (e == LanguageParser.Name(SyntaxParser.Missing(IdentifierToken)) &&
        diagnostics == old(diagnostics) + [Diagnostic(ExpectedName("expression"), old(Location()))] && position == old(position))
      ensures e.Literal? ==> IsLiteralStart(e.token.kind)
      decreases Remaining(), 0
    {
      var k := Peek(0).kind;
      if k == OpenParenToken {
        var open := Match(OpenParenToken, None);
        var inner := ParseExpression();
        var close := Match(CloseParenToken, None);
        e := LanguageParser.Parenthesized(open, inner, close);
      } else if IsLiteralStart(k) {
        var token := Match(k, None);
        e := LanguageParser.Literal(token);
      } else if k == IdentifierToken {
        var identifier := Next();
        e := LanguageParser.Name(identifier);
      } else {
        diagnostics := diagnostics + [Diagnostic(ExpectedName("expression"), Location())];
        e := LanguageParser.Name(SyntaxParser.Missing(IdentifierToken));
      }
    }

    /**
     * `ParseExpressionStatement`: an expression and a semicolon. When the
     * expression already pushed diagnostics, a failed semicolon's diagnostic
     * is popped so that one mistake is reported once.
     */
    method ParseExpressionStatement() returns (e: Expr, semicolon: Token, ghost afterExpression: seq<Diagnostic>)
      requires Valid()
      modifies this`position, this`diagnostics
      ensures old(position) <= position && LanguageParser.WellNested(e) && semicolon.kind == SemicolonToken
      ensures old(diagnostics) <= afterExpression <= diagnostics && |diagnostics| <= |afterExpression| + 1
      ensures |afterExpression| > |old(diagnostics)| ==> diagnostics == afterExpression
    {
      var previousCount := |diagnostics|;
      e := ParseExpression();
      afterExpression := diagnostics;
      var popLast := previousCount != |diagnostics|;
      previousCount := |diagnostics|;
      semicolon := Match(SemicolonToken, None);
      popLast := popLast && previousCount != |diagnostics|;
      if popLast {
        diagnostics := diagnostics[..|diagnostics| - 1];
      }
    }
  }
}
