/**
 * Syntax kinds and the lookup tables the lexer and the parsers consult:
 * operator precedences, keyword recognition, token texts, the base operator
 * of a compound assignment and the name-suffix classification of kinds.
 */
module SyntaxFacts {
  import opened Wrappers
  import opened Strings

  /**
   * The kinds of tokens, trivia and (a few) nodes, named as in the compiler.
   * Like the compiler's enum, a kind is a named integer; the members are
   * numbered category by category: tokens, keywords, trivia, statements,
   * expressions.
   */
  newtype SyntaxKind = k: int | 0 <= k < 89

  // punctuation
  const PeriodToken: SyntaxKind := 0
  const CommaToken: SyntaxKind := 1
  const PlusToken: SyntaxKind := 2
  const MinusToken: SyntaxKind := 3
  const AsteriskToken: SyntaxKind := 4
  const SlashToken: SyntaxKind := 5
  const OpenParenToken: SyntaxKind := 6
  const CloseParenToken: SyntaxKind := 7
  const EqualsToken: SyntaxKind := 8
  const TildeToken: SyntaxKind := 9
  const CaretToken: SyntaxKind := 10
  const AmpersandToken: SyntaxKind := 11
  const PipeToken: SyntaxKind := 12
  const LessThanLessThanToken: SyntaxKind := 13
  const GreaterThanGreaterThanToken: SyntaxKind := 14
  const GreaterThanGreaterThanGreaterThanToken: SyntaxKind := 15
  const ExclamationToken: SyntaxKind := 16
  const AmpersandAmpersandToken: SyntaxKind := 17
  const PipePipeToken: SyntaxKind := 18
  const AsteriskAsteriskToken: SyntaxKind := 19
  const PlusPlusToken: SyntaxKind := 20
  const MinusMinusToken: SyntaxKind := 21
  const OpenBraceToken: SyntaxKind := 22
  const CloseBraceToken: SyntaxKind := 23
  const OpenBracketToken: SyntaxKind := 24
  const CloseBracketToken: SyntaxKind := 25
  const SemicolonToken: SyntaxKind := 26
  const ColonToken: SyntaxKind := 27
  const QuestionToken: SyntaxKind := 28
  const EqualsEqualsToken: SyntaxKind := 29
  const ExclamationEqualsToken: SyntaxKind := 30
  const LessThanToken: SyntaxKind := 31
  const GreaterThanToken: SyntaxKind := 32
  const PercentToken: SyntaxKind := 33
  const QuestionQuestionToken: SyntaxKind := 34
  const LessThanEqualsToken: SyntaxKind := 35
  const GreaterThanEqualsToken: SyntaxKind := 36
  const AmpersandEqualsToken: SyntaxKind := 37
  const PipeEqualsToken: SyntaxKind := 38
  const CaretEqualsToken: SyntaxKind := 39
  const PlusEqualsToken: SyntaxKind := 40
  const MinusEqualsToken: SyntaxKind := 41
  const SlashEqualsToken: SyntaxKind := 42
  const AsteriskEqualsToken: SyntaxKind := 43
  const AsteriskAsteriskEqualsToken: SyntaxKind := 44
  const GreaterThanGreaterThanEqualsToken: SyntaxKind := 45
  const GreaterThanGreaterThanGreaterThanEqualsToken: SyntaxKind := 46
  const LessThanLessThanEqualsToken: SyntaxKind := 47
  const PercentEqualsToken: SyntaxKind := 48
  const QuestionQuestionEqualsToken: SyntaxKind := 49
  const QuestionPeriodToken: SyntaxKind := 50
  const QuestionOpenBracketToken: SyntaxKind := 51

  // tokens without a fixed text
  const IdentifierToken: SyntaxKind := 52
  const NumericLiteralToken: SyntaxKind := 53
  const StringLiteralToken: SyntaxKind := 54
  const CharacterLiteralToken: SyntaxKind := 55
  const EndOfFileToken: SyntaxKind := 56
  const BadToken: SyntaxKind := 57

  // keywords
  const TrueKeyword: SyntaxKind := 58
  const FalseKeyword: SyntaxKind := 59
  const NullKeyword: SyntaxKind := 60
  const VarKeyword: SyntaxKind := 61
  const ConstKeyword: SyntaxKind := 62
  const RefKeyword: SyntaxKind := 63
  const IfKeyword: SyntaxKind := 64
  const ElseKeyword: SyntaxKind := 65
  const WhileKeyword: SyntaxKind := 66
  const ForKeyword: SyntaxKind := 67
  const DoKeyword: SyntaxKind := 68
  const BreakKeyword: SyntaxKind := 69
  const ContinueKeyword: SyntaxKind := 70
  const TryKeyword: SyntaxKind := 71
  const CatchKeyword: SyntaxKind := 72
  const FinallyKeyword: SyntaxKind := 73
  const ReturnKeyword: SyntaxKind := 74
  const IsKeyword: SyntaxKind := 75
  const IsntKeyword: SyntaxKind := 76
  const TypeOfKeyword: SyntaxKind := 77
  const StructKeyword: SyntaxKind := 78
  const ClassKeyword: SyntaxKind := 79

  // trivia
  const WhitespaceTrivia: SyntaxKind := 80
  const EndOfLineTrivia: SyntaxKind := 81
  const SingleLineCommentTrivia: SyntaxKind := 82
  const MultiLineCommentTrivia: SyntaxKind := 83
  const SkippedTokensTrivia: SyntaxKind := 84

  // nodes
  const ExpressionStatement: SyntaxKind := 85
  const BlockStatement: SyntaxKind := 86
  const BinaryExpression: SyntaxKind := 87
  const LiteralExpression: SyntaxKind := 88

  /** The category word every enum member's name ends with. */
  datatype NameSuffix = TokenSuffix | KeywordSuffix | TriviaSuffix | StatementSuffix | ExpressionSuffix

  function SuffixText(s: NameSuffix): string
  {
    match s
    case TokenSuffix => "Token"
    case KeywordSuffix => "Keyword"
    case TriviaSuffix => "Trivia"
    case StatementSuffix => "Statement"
    case ExpressionSuffix => "Expression"
  }

  /** The category of a kind, read off its name. */
  function Suffix(k: SyntaxKind): NameSuffix
  {
    if k <= BadToken then TokenSuffix
    else if k <= ClassKeyword then KeywordSuffix
    else if k <= SkippedTokensTrivia then TriviaSuffix
    else if k <= BlockStatement then StatementSuffix
    else ExpressionSuffix
  }

  /** The enum member's name without its category word. */
  function Stem(k: SyntaxKind): string
  {
    if k == PeriodToken then "Period"
    else if k == CommaToken then "Comma"
    else if k == PlusToken then "Plus"
    else if k == MinusToken then "Minus"
    else if k == AsteriskToken then "Asterisk"
    else if k == SlashToken then "Slash"
    else if k == OpenParenToken then "OpenParen"
    else if k == CloseParenToken then "CloseParen"
    else if k == EqualsToken then "Equals"
    else if k == TildeToken then "Tilde"
    else if k == CaretToken then "Caret"
    else if k == AmpersandToken then "Ampersand"
    else if k == PipeToken then "Pipe"
    else if k == LessThanLessThanToken then "LessThanLessThan"
    else if k == GreaterThanGreaterThanToken then "GreaterThanGreaterThan"
    else if k == GreaterThanGreaterThanGreaterThanToken then "GreaterThanGreaterThanGreaterThan"
    else if k == ExclamationToken then "Exclamation"
    else if k == AmpersandAmpersandToken then "AmpersandAmpersand"
    else if k == PipePipeToken then "PipePipe"
    else if k == AsteriskAsteriskToken then "AsteriskAsterisk"
    else if k == PlusPlusToken then "PlusPlus"
    else if k == MinusMinusToken then "MinusMinus"
    else if k == OpenBraceToken then "OpenBrace"
    else if k == CloseBraceToken then "CloseBrace"
    else if k == OpenBracketToken then "OpenBracket"
    else if k == CloseBracketToken then "CloseBracket"
    else if k == SemicolonToken then "Semicolon"
    else if k == ColonToken then "Colon"
    else if k == QuestionToken then "Question"
    else if k == EqualsEqualsToken then "EqualsEquals"
    else if k == ExclamationEqualsToken then "ExclamationEquals"
    else if k == LessThanToken then "LessThan"
    else if k == GreaterThanToken then "GreaterThan"
    else if k == PercentToken then "Percent"
    else if k == QuestionQuestionToken then "QuestionQuestion"
    else if k == LessThanEqualsToken then "LessThanEquals"
    else if k == GreaterThanEqualsToken then "GreaterThanEquals"
    else if k == AmpersandEqualsToken then "AmpersandEquals"
    else if k == PipeEqualsToken then "PipeEquals"
    else if k == CaretEqualsToken then "CaretEquals"
    else if k == PlusEqualsToken then "PlusEquals"
    else if k == MinusEqualsToken then "MinusEquals"
    else if k == SlashEqualsToken then "SlashEquals"
    else if k == AsteriskEqualsToken then "AsteriskEquals"
    else if k == AsteriskAsteriskEqualsToken then "AsteriskAsteriskEquals"
    else if k == GreaterThanGreaterThanEqualsToken then "GreaterThanGreaterThanEquals"
    else if k == GreaterThanGreaterThanGreaterThanEqualsToken then "GreaterThanGreaterThanGreaterThanEquals"
    else if k == LessThanLessThanEqualsToken then "LessThanLessThanEquals"
    else if k == PercentEqualsToken then "PercentEquals"
    else if k == QuestionQuestionEqualsToken then "QuestionQuestionEquals"
    else if k == QuestionPeriodToken then "QuestionPeriod"
    else if k == QuestionOpenBracketToken then "QuestionOpenBracket"
    else if k == TrueKeyword then "True"
    else if k == FalseKeyword then "False"
    else if k == NullKeyword then "Null"
    else if k == VarKeyword then "Var"
    else if k == ConstKeyword then "Const"
    else if k == RefKeyword then "Ref"
    else if k == IfKeyword then "If"
    else if k == ElseKeyword then "Else"
    else if k == WhileKeyword then "While"
    else if k == ForKeyword then "For"
    else if k == DoKeyword then "Do"
    else if k == BreakKeyword then "Break"
    else if k == ContinueKeyword then "Continue"
    else if k == TryKeyword then "Try"
    else if k == CatchKeyword then "Catch"
    else if k == FinallyKeyword then "Finally"
    else if k == ReturnKeyword then "Return"
    else if k == IsKeyword then "Is"
    else if k == IsntKeyword then "Isnt"
    else if k == TypeOfKeyword then "TypeOf"
    else if k == StructKeyword then "Struct"
    else if k == ClassKeyword then "Class"
    else if k == IdentifierToken then "Identifier"
    else if k == NumericLiteralToken then "NumericLiteral"
    else if k == StringLiteralToken then "StringLiteral"
    else if k == CharacterLiteralToken then "CharacterLiteral"
    else if k == EndOfFileToken then "EndOfFile"
    else if k == BadToken then "Bad"
    else if k == WhitespaceTrivia then "Whitespace"
    else if k == EndOfLineTrivia then "EndOfLine"
    else if k == SingleLineCommentTrivia then "SingleLineComment"
    else if k == MultiLineCommentTrivia then "MultiLineComment"
    else if k == SkippedTokensTrivia then "SkippedTokens"
    else if k == ExpressionStatement then "Expression"
    else if k == BlockStatement then "Block"
    else if k == BinaryExpression then "Binary"
    else "Literal"
  }

  /** The enum member's name, which the name-suffix predicates below inspect. */
  function Name(k: SyntaxKind): string
  {
    Stem(k) + SuffixText(Suffix(k))
  }

  /** Binary operator precedence; 0 for a kind that is not a binary operator. */
  function BinaryPrecedence(k: SyntaxKind): nat
  {
    if k == AsteriskAsteriskToken then 14
    else if k == AsteriskToken || k == SlashToken || k == PercentToken then 13
    else if k == PlusToken || k == MinusToken then 12
    else if k == LessThanLessThanToken || k == GreaterThanGreaterThanToken || k == GreaterThanGreaterThanGreaterThanToken then 11
    else if k == IsKeyword || k == IsntKeyword || k == LessThanToken || k == GreaterThanToken
      || k == LessThanEqualsToken || k == GreaterThanEqualsToken then 10
    else if k == EqualsEqualsToken || k == ExclamationEqualsToken then 9
    else if k == AmpersandToken then 8
    else if k == CaretToken then 7
    else if k == PipeToken then 6
    else if k == AmpersandAmpersandToken then 5
    else if k == PipePipeToken then 4
    else if k == QuestionQuestionToken then 3
    else 0
  }

  /** Primary (postfix, call, index, member access) precedence; 0 otherwise. */
  function PrimaryPrecedence(k: SyntaxKind): nat
  {
    if k == TypeOfKeyword || k == OpenBracketToken || k == OpenParenToken || k == PeriodToken || k == QuestionPeriodToken
      || k == QuestionOpenBracketToken || k == PlusPlusToken || k == MinusMinusToken || k == ExclamationToken then 18
    else 0
  }

  /** Unary (prefix) operator precedence; 0 otherwise. */
  function UnaryPrecedence(k: SyntaxKind): nat
  {
    if k == PlusPlusToken || k == MinusMinusToken || k == PlusToken || k == MinusToken || k == ExclamationToken || k == TildeToken then 17
    else 0
  }

  /** Ternary operator precedence: only `?` has one. */
  function TernaryPrecedence(k: SyntaxKind): nat
  {
    if k == QuestionToken then 2 else 0
  }

  /** The right operator paired with a ternary left operator; anything but `?` throws. */
  function TernaryOperatorPair(k: SyntaxKind): (r: Result<SyntaxKind>)
    ensures r.Ok? <==> TernaryPrecedence(k) > 0
    ensures r.Ok? ==> r.value == ColonToken && GetText(k) == Some("?") && GetText(r.value) == Some(":")
  {
    if k == QuestionToken then Ok(ColonToken) else Fail("GetTernaryOperatorPair: unknown right operator")
  }

  /** The keyword kind spelled by `text`, or IdentifierToken when `text` is no keyword. */
  function KeywordKind(text: string): SyntaxKind
  {
    // the switch over the keyword spellings, grouped by length
    match |text|
    case 2 =>
      (match text
      case "if" => IfKeyword
      case "do" => DoKeyword
      case "is" => IsKeyword
      case _ => IdentifierToken)
    case 3 =>
      (match text
      case "var" => VarKeyword
      case "ref" => RefKeyword
      case "for" => ForKeyword
      case "try" => TryKeyword
      case _ => IdentifierToken)
    case 4 =>
      (match text
      case "true" => TrueKeyword
      case "null" => NullKeyword
      case "else" => ElseKeyword
      case "isnt" => IsntKeyword
      case _ => IdentifierToken)
    case 5 =>
      (match text
      case "false" => FalseKeyword
      case "const" => ConstKeyword
      case "while" => WhileKeyword
      case "break" => BreakKeyword
      case "catch" => CatchKeyword
      case "class" => ClassKeyword
      case _ => IdentifierToken)
    case 6 =>
      (match text
      case "return" => ReturnKeyword
      case "typeof" => TypeOfKeyword
      case "struct" => StructKeyword
      case _ => IdentifierToken)
    case 7 =>
      (match text
      case "finally" => FinallyKeyword
      case _ => IdentifierToken)
    case 8 =>
      (match text
      case "continue" => ContinueKeyword
      case _ => IdentifierToken)
    case _ => IdentifierToken
  }

  /** The fixed text of a punctuation token or keyword; None (null) for every other kind. */
  function GetText(k: SyntaxKind): Option<string>
  {
    if Suffix(k) == KeywordSuffix then Some(KeywordText(k)) else PunctuationText(k)
  }

  /** The spelling of a keyword kind; the empty string for every other kind. */
  function KeywordText(k: SyntaxKind): string
  {
    if k == TrueKeyword then "true"
    else if k == FalseKeyword then "false"
    else if k == NullKeyword then "null"
    else if k == VarKeyword then "var"
    else if k == ConstKeyword then "const"
    else if k == RefKeyword then "ref"
    else if k == IfKeyword then "if"
    else if k == ElseKeyword then "else"
    else if k == WhileKeyword then "while"
    else if k == ForKeyword then "for"
    else if k == DoKeyword then "do"
    else if k == BreakKeyword then "break"
    else if k == ContinueKeyword then "continue"
    else if k == TryKeyword then "try"
    else if k == CatchKeyword then "catch"
    else if k == FinallyKeyword then "finally"
    else if k == ReturnKeyword then "return"
    else if k == IsKeyword then "is"
    else if k == IsntKeyword then "isnt"
    else if k == TypeOfKeyword then "typeof"
    else if k == StructKeyword then "struct"
    else if k == ClassKeyword then "class"
    else ""
  }

  /** The spelling of a punctuation token; None for every kind that is no punctuation. */
  function PunctuationText(k: SyntaxKind): Option<string>
  {
    if k == PeriodToken then Some(".")
    else if k == CommaToken then Some(",")
    else if k == PlusToken then Some("+")
    else if k == MinusToken then Some("-")
    else if k == AsteriskToken then Some("*")
    else if k == SlashToken then Some("/")
    else if k == OpenParenToken then Some("(")
    else if k == CloseParenToken then Some(")")
    else if k == EqualsToken then Some("=")
    else if k == TildeToken then Some("~")
    else if k == CaretToken then Some("^")
    else if k == AmpersandToken then Some("&")
    else if k == PipeToken then Some("|")
    else if k == LessThanLessThanToken then Some("<<")
    else if k == GreaterThanGreaterThanToken then Some(">>")
    else if k == GreaterThanGreaterThanGreaterThanToken then Some(">>>")
    else if k == ExclamationToken then Some("!")
    else if k == AmpersandAmpersandToken then Some("&&")
    else if k == PipePipeToken then Some("||")
    else if k == AsteriskAsteriskToken then Some("**")
    else if k == PlusPlusToken then Some("++")
    else if k == MinusMinusToken then Some("--")
    else if k == OpenBraceToken then Some("{")
    else if k == CloseBraceToken then Some("}")
    else if k == OpenBracketToken then Some("[")
    else if k == CloseBracketToken then Some("]")
    else if k == SemicolonToken then Some(";")
    else if k == ColonToken then Some(":")
    else if k == QuestionToken then Some("?")
    else if k == EqualsEqualsToken then Some("==")
    else if k == ExclamationEqualsToken then Some("!=")
    else if k == LessThanToken then Some("<")
    else if k == GreaterThanToken then Some(">")
    else if k == PercentToken then Some("%")
    else if k == QuestionQuestionToken then Some("??")
    else if k == LessThanEqualsToken then Some("<=")
    else if k == GreaterThanEqualsToken then Some(">=")
    else if k == AmpersandEqualsToken then Some("&=")
    else if k == PipeEqualsToken then Some("|=")
    else if k == CaretEqualsToken then Some("^=")
    else if k == PlusEqualsToken then Some("+=")
    else if k == MinusEqualsToken then Some("-=")
    else if k == SlashEqualsToken then Some("/=")
    else if k == AsteriskEqualsToken then Some("*=")
    else if k == AsteriskAsteriskEqualsToken then Some("**=")
    else if k == GreaterThanGreaterThanEqualsToken then Some(">>=")
    else if k == GreaterThanGreaterThanGreaterThanEqualsToken then Some(">>>=")
    else if k == LessThanLessThanEqualsToken then Some("<<=")
    else if k == PercentEqualsToken then Some("%=")
    else if k == QuestionQuestionEqualsToken then Some("??=")
    else if k == QuestionPeriodToken then Some("?.")
    else if k == QuestionOpenBracketToken then Some("?[")
    else None
  }

  /** The thirteen compound-assignment tokens. */
  predicate IsCompoundAssignment(k: SyntaxKind)
  {
    k == PlusEqualsToken || k == MinusEqualsToken || k == AsteriskEqualsToken || k == SlashEqualsToken
    || k == AmpersandEqualsToken || k == PipeEqualsToken || k == CaretEqualsToken || k == AsteriskAsteriskEqualsToken
    || k == LessThanLessThanEqualsToken || k == GreaterThanGreaterThanEqualsToken
    || k == GreaterThanGreaterThanGreaterThanEqualsToken || k == PercentEqualsToken
    || k == QuestionQuestionEqualsToken
  }

  /**
   * The binary operator a compound assignment applies (`+=` gives `+`); any other kind throws.
   */
  function BinaryOperatorOfAssignmentOperator(k: SyntaxKind): Result<SyntaxKind>
  {
    if k == PlusEqualsToken then Ok(PlusToken)
    else if k == MinusEqualsToken then Ok(MinusToken)
    else if k == AsteriskEqualsToken then Ok(AsteriskToken)
    else if k == SlashEqualsToken then Ok(SlashToken)
    else if k == AmpersandEqualsToken then Ok(AmpersandToken)
    else if k == PipeEqualsToken then Ok(PipeToken)
    else if k == CaretEqualsToken then Ok(CaretToken)
    else if k == AsteriskAsteriskEqualsToken then Ok(AsteriskAsteriskToken)
    else if k == LessThanLessThanEqualsToken then Ok(LessThanLessThanToken)
    else if k == GreaterThanGreaterThanEqualsToken then Ok(GreaterThanGreaterThanToken)
    else if k == GreaterThanGreaterThanGreaterThanEqualsToken then Ok(GreaterThanGreaterThanGreaterThanToken)
    else if k == PercentEqualsToken then Ok(PercentToken)
    else if k == QuestionQuestionEqualsToken then Ok(QuestionQuestionToken)
    else Fail("GetBinaryOperatorOfAssignmentOperator: unexpected syntax")
  }

  /**
   * Exactly the compound tokens have a base operator; it is a binary operator, itself no
   * compound token, and the compound token is spelled as its text followed by `=`.
   */
  lemma CompoundAssignmentBase(k: SyntaxKind)
    ensures BinaryOperatorOfAssignmentOperator(k).Ok? <==> IsCompoundAssignment(k)
    ensures BinaryOperatorOfAssignmentOperator(k).Ok? ==>
      BinaryPrecedence(BinaryOperatorOfAssignmentOperator(k).value) > 0 &&
      !IsCompoundAssignment(BinaryOperatorOfAssignmentOperator(k).value)
  {
  }

  /** The compound token is spelled as its binary operator followed by `=`. */
  lemma CompoundAssignmentText(k: SyntaxKind)
    requires IsCompoundAssignment(k)
    ensures PunctuationText(BinaryOperatorOfAssignmentOperator(k).value).Some?
    ensures PunctuationText(k) == Some(PunctuationText(BinaryOperatorOfAssignmentOperator(k).value).value + "=")
  {
    if k == PlusEqualsToken || k == MinusEqualsToken || k == AsteriskEqualsToken || k == SlashEqualsToken {
      ArithmeticCompoundText(k);
    } else if k == AmpersandEqualsToken || k == PipeEqualsToken || k == CaretEqualsToken || k == AsteriskAsteriskEqualsToken {
      BitwiseCompoundText(k);
    } else {
      ShiftCompoundText(k);
    }
  }

  lemma ArithmeticCompoundText(k: SyntaxKind)
    requires k == PlusEqualsToken || k == MinusEqualsToken || k == AsteriskEqualsToken || k == SlashEqualsToken
    ensures PunctuationText(BinaryOperatorOfAssignmentOperator(k).value).Some?
    ensures PunctuationText(k) == Some(PunctuationText(BinaryOperatorOfAssignmentOperator(k).value).value + "=")
  {
    var op := PunctuationText(BinaryOperatorOfAssignmentOperator(k).value).value;
    if k == PlusEqualsToken { assert "+=" == op + "="; }
    else if k == MinusEqualsToken { assert "-=" == op + "="; }
    else if k == AsteriskEqualsToken { assert "*=" == op + "="; }
    else { assert "/=" == op + "="; }
  }

  lemma BitwiseCompoundText(k: SyntaxKind)
    requires k == AmpersandEqualsToken || k == PipeEqualsToken || k == CaretEqualsToken || k == AsteriskAsteriskEqualsToken
    ensures PunctuationText(BinaryOperatorOfAssignmentOperator(k).value).Some?
    ensures PunctuationText(k) == Some(PunctuationText(BinaryOperatorOfAssignmentOperator(k).value).value + "=")
  {
    var op := PunctuationText(BinaryOperatorOfAssignmentOperator(k).value).value;
    if k == AmpersandEqualsToken { assert "&=" == op + "="; }
    else if k == PipeEqualsToken { assert "|=" == op + "="; }
    else if k == CaretEqualsToken { assert "^=" == op + "="; }
    else { assert "**=" == op + "="; }
  }

  lemma ShiftCompoundText(k: SyntaxKind)
    requires k == LessThanLessThanEqualsToken || k == GreaterThanGreaterThanEqualsToken || k == GreaterThanGreaterThanGreaterThanEqualsToken || k == PercentEqualsToken || k == QuestionQuestionEqualsToken
    ensures PunctuationText(BinaryOperatorOfAssignmentOperator(k).value).Some?
    ensures PunctuationText(k) == Some(PunctuationText(BinaryOperatorOfAssignmentOperator(k).value).value + "=")
  {
    var op := PunctuationText(BinaryOperatorOfAssignmentOperator(k).value).value;
    if k == LessThanLessThanEqualsToken { assert "<<=" == op + "="; }
    else if k == GreaterThanGreaterThanEqualsToken { assert ">>=" == op + "="; }
    else if k == GreaterThanGreaterThanGreaterThanEqualsToken { assert ">>>=" == op + "="; }
    else if k == PercentEqualsToken { assert "%=" == op + "="; }
    else { assert "??=" == op + "="; }
  }

  /** `IsKeyword`: the kind's name ends with "Keyword". */
  predicate IsKeywordKind(k: SyntaxKind) { EndsWith(Name(k), "Keyword") }

  /** `IsTrivia`: the kind's name ends with "Trivia". */
  predicate IsTrivia(k: SyntaxKind) { EndsWith(Name(k), "Trivia") }

  /** `IsToken`: no trivia, and a keyword or a name ending with "Token". */
  predicate IsToken(k: SyntaxKind) { !IsTrivia(k) && (IsKeywordKind(k) || EndsWith(Name(k), "Token")) }

  predicate IsComment(k: SyntaxKind) { k == SingleLineCommentTrivia || k == MultiLineCommentTrivia }

  /** A string that ends with `x` agrees with `x` on its last two characters. */
  lemma EndsWithLastTwo(w: string, x: string)
    ensures EndsWith(w, x) && |x| >= 2 ==> w[|w| - 1] == x[|x| - 1] && w[|w| - 2] == x[|x| - 2]
  {
    if EndsWith(w, x) && |x| >= 2 {
      assert w[|w| - 1] == w[|w| - |x|..][|x| - 1];
      assert w[|w| - 2] == w[|w| - |x|..][|x| - 2];
    }
  }

  /** A name ends with a category word exactly when that word is its category. */
  lemma EndsWithSuffix(stem: string, s: NameSuffix, t: NameSuffix)
    ensures EndsWith(stem + SuffixText(s), SuffixText(t)) <==> s == t
  {
    var w := stem + SuffixText(s);
    var x := SuffixText(t);
    if s == t {
      assert w[|w| - |x|..] == x;
    } else {
      EndsWithLastTwo(w, x);
      assert w[|w| - 1] == SuffixText(s)[|SuffixText(s)| - 1];
      assert w[|w| - 2] == SuffixText(s)[|SuffixText(s)| - 2];
    }
  }

  /** `IsKeyword` holds exactly for the kinds of the keyword category. */
  lemma KeywordsByName(k: SyntaxKind)
    ensures IsKeywordKind(k) <==> Suffix(k) == KeywordSuffix
  {
    EndsWithSuffix(Stem(k), Suffix(k), KeywordSuffix);
  }

  /** `IsTrivia` holds exactly for the kinds of the trivia category. */
  lemma TriviaByName(k: SyntaxKind)
    ensures IsTrivia(k) <==> Suffix(k) == TriviaSuffix
  {
    EndsWithSuffix(Stem(k), Suffix(k), TriviaSuffix);
  }

  /** `IsToken` holds exactly for the keyword and token categories, never for nodes. */
  lemma TokensByName(k: SyntaxKind)
    ensures IsToken(k) <==> Suffix(k) == KeywordSuffix || Suffix(k) == TokenSuffix
  {
    KeywordsByName(k);
    TriviaByName(k);
    EndsWithSuffix(Stem(k), Suffix(k), TokenSuffix);
  }

  /** The spelling of every keyword kind is recognised as that kind again. */
  lemma KeywordTextRecognised(k: SyntaxKind)
    requires Suffix(k) == KeywordSuffix
    ensures KeywordKind(KeywordText(k)) == k
  {
  }

  /** Only keyword spellings are recognised, as keyword kinds that spell them back. */
  lemma KeywordKindRoundTrip(text: string)
    ensures KeywordKind(text) != IdentifierToken ==> Suffix(KeywordKind(text)) == KeywordSuffix
    ensures KeywordKind(text) != IdentifierToken ==> GetText(KeywordKind(text)) == Some(text)
  {
    var k := KeywordKind(text);
    if k != IdentifierToken {
      assert TrueKeyword <= k <= ClassKeyword;
      assert Suffix(k) == KeywordSuffix && KeywordText(k) == text;
    }
  }

  /** Every kind with a fixed text is a token, and no trivia kind has one. */
  lemma FixedTextIsToken(k: SyntaxKind)
    ensures GetText(k).Some? ==> IsToken(k)
    ensures IsTrivia(k) ==> GetText(k).None?
  {
    TokensByName(k);
    TriviaByName(k);
  }

  /**
   * Every precedence class is above the next: primary over unary over every binary operator,
   * and every binary operator over the ternary one.
   */
  lemma {:induction false} PrecedenceClasses(k: SyntaxKind, j: SyntaxKind)
    ensures BinaryPrecedence(j) <= 14
    ensures UnaryPrecedence(k) > 0 ==> UnaryPrecedence(k) > BinaryPrecedence(j)
    ensures PrimaryPrecedence(k) > 0 ==> PrimaryPrecedence(k) > UnaryPrecedence(j)
    ensures BinaryPrecedence(k) > 0 ==> BinaryPrecedence(k) > TernaryPrecedence(j)
  {
  }
}
