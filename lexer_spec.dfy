/**
 * What the lexer reads at a position of the source text, written as pure
 * functions: one function per reading routine of the lexer (trivia pieces,
 * operators, string and numeric literals, identifiers), the tokens and trivia
 * it builds, and the properties of lexing proved about them. The class in the
 * `Lexer` module performs the same steps by updating its fields and is proved
 * to agree with these functions.
 */
module LexerSpec {
  import opened Wrappers
  import opened Strings
  import opened SyntaxFacts

  /** `char.IsLetter`, restricted to ASCII in this model. */
  predicate IsLetter(c: char) { IsAsciiLetter(c) }

  /** A character that continues an identifier: a letter, a digit or `_`. */
  predicate IsIdentifierPart(c: char) { IsAsciiLetter(c) || IsAsciiDigit(c) || c == '_' }

  /** Whitespace other than a line break: what a whitespace trivia is made of. */
  predicate IsInlineSpace(c: char) { IsWhiteSpace(c) && c != '\r' && c != '\n' }

  /** A character that ends a single-line comment (`'\0'` is the end-of-text marker). */
  predicate EndsLine(c: char) { c == '\r' || c == '\n' || c == '\0' }

  /** The first characters of the punctuation tokens. */
  predicate IsOperatorStart(c: char)
  {
    match c
    case '.' | ',' | '(' | ')' | '{' | '}' | '[' | ']' | ';' | ':' | '~' => true
    case '%' | '^' | '?' | '+' | '-' | '/' | '*' | '&' | '|' | '=' | '!' | '<' | '>' => true
    case _ => false
  }

  /** The errors the lexer reports, and those the parser attaches to the tokens and nodes it builds. */
  datatype LexError =
    | BadCharacter(c: char)
    | UnterminatedComment
    | UnterminatedString
    | UnrecognizedEscapeSequence(escaped: char)
    | EmptyCharacterLiteral
    | CharacterLiteralTooLong
    | InvalidType(text: string, typeName: string)
    | ExpectedToken(expected: SyntaxKind)
    | UnexpectedToken(found: SyntaxKind, wanted: Option<SyntaxKind>)
    | ExpectedName(name: string)
    | AmbiguousElse
    | NoCatchOrFinally

  /** A diagnostic whose offset counts from the start of the token or trivia holding it. */
  datatype SyntaxDiagnostic = SyntaxDiagnostic(error: LexError, offset: int, width: nat)

  /** The diagnostics with every offset moved by `delta`. */
  function Shift(ds: seq<SyntaxDiagnostic>, delta: int): seq<SyntaxDiagnostic>
  {
    seq(|ds|, i requires 0 <= i < |ds| => ds[i].(offset := ds[i].offset + delta))
  }

  /** The value a token carries (`null`, an int, a double, a string or a char). */
  datatype Value =
    | NoValue
    | IntValue(i: int)
    | DecimalValue(digits: string)
    | StringValue(s: string)
    | CharValue(c: char)

  datatype Trivia =
    | Trivia(kind: SyntaxKind, text: string, diagnostics: seq<SyntaxDiagnostic>)
    | SkippedTokens(token: Token)

  /** A token; `text == None` marks a token the parser fabricated ("missing"). */
  datatype Token = Token(
    kind: SyntaxKind,
    text: Option<string>,
    value: Value,
    leading: seq<Trivia>,
    trailing: seq<Trivia>,
    diagnostics: seq<SyntaxDiagnostic>)
  {
    predicate IsMissing() { text.None? }
  }

  /**
   * The source text a trivia covers. A skipped token counts with its own text
   * only: the lexer lists the trivia of a skipped token beside it.
   */
  function TriviaText(t: Trivia): string
  {
    match t
    case Trivia(_, s, _) => s
    case SkippedTokens(tok) => tok.text.GetOr("")
  }

  function TriviaListText(ts: seq<Trivia>): string
  {
    if ts == [] then "" else TriviaText(ts[0]) + TriviaListText(ts[1..])
  }

  /** The text of a token together with its leading and trailing trivia. */
  function FullText(tok: Token): string
  {
    TriviaListText(tok.leading) + tok.text.GetOr("") + TriviaListText(tok.trailing)
  }

  /** The character at `i`, or `'\0'` past the end of the text. */
  function Peek(text: string, i: nat): char
  {
    if i < |text| then text[i] else '\0'
  }

  // ---------------------------------------------------------------------------
  // Trivia pieces

  /** Where a run of whitespace starting at `pos` ends. */
  function WhitespaceEnd(text: string, pos: nat): (end: nat)
    requires pos <= |text|
    ensures pos <= end <= |text|
    decreases |text| - pos
  {
    if pos < |text| && IsInlineSpace(text[pos]) then WhitespaceEnd(text, pos + 1) else pos
  }

  /** Where the rest of a single-line comment starting at `pos` ends. */
  function LineEnd(text: string, pos: nat): (end: nat)
    requires pos <= |text|
    ensures pos <= end <= |text|
    decreases |text| - pos
  {
    if pos < |text| && !EndsLine(text[pos]) then LineEnd(text, pos + 1) else pos
  }

  /** A line break: `\r\n` together, otherwise the one character. */
  function LineBreakEnd(text: string, pos: nat): nat
  {
    if Peek(text, pos) == '\r' && Peek(text, pos + 1) == '\n' then pos + 2 else pos + 1
  }

  predicate ClosesAt(text: string, i: nat)
  {
    i + 1 < |text| && text[i] == '*' && text[i + 1] == '/'
  }

  datatype CommentScan = CommentScan(end: nat, terminated: bool)

  /** Where the rest of a multi-line comment starting at `pos` ends, and whether a closing star-slash ended it. */
  function BlockCommentEnd(text: string, pos: nat): (r: CommentScan)
    requires pos <= |text|
    ensures pos <= r.end <= |text|
    decreases |text| - pos
  {
    if Peek(text, pos) == '\0' then CommentScan(pos, false)
    else if text[pos] == '*' && Peek(text, pos + 1) == '/' then CommentScan(pos + 2, true)
    else BlockCommentEnd(text, pos + 1)
  }

  /** A whitespace run is all inline space and stops at the first other character. */
  lemma {:induction false} WhitespaceEndSpans(text: string, pos: nat)
    requires pos <= |text|
    ensures forall i :: pos <= i < WhitespaceEnd(text, pos) ==> IsInlineSpace(text[i])
    ensures WhitespaceEnd(text, pos) == |text| || !IsInlineSpace(text[WhitespaceEnd(text, pos)])
    decreases |text| - pos
  {
    if pos < |text| && IsInlineSpace(text[pos]) {
      WhitespaceEndSpans(text, pos + 1);
    }
  }

  /** A comment line holds no line break and stops at the first one (or the end). */
  lemma {:induction false} LineEndSpans(text: string, pos: nat)
    requires pos <= |text|
    ensures forall i :: pos <= i < LineEnd(text, pos) ==> !EndsLine(text[i])
    ensures LineEnd(text, pos) == |text| || EndsLine(text[LineEnd(text, pos)])
    decreases |text| - pos
  {
    if pos < |text| && !EndsLine(text[pos]) {
      LineEndSpans(text, pos + 1);
    }
  }

  /**
   * A multi-line comment ends just after its first closing star-slash; an
   * unterminated one runs to the end of the text (or a NUL character).
   */
  lemma {:induction false} BlockCommentEndSpans(text: string, pos: nat)
    requires pos <= |text|
    ensures var r := BlockCommentEnd(text, pos);
      (forall i :: pos <= i < r.end ==> text[i] != '\0') &&
      (r.terminated ==>
        pos + 2 <= r.end && ClosesAt(text, r.end - 2) &&
        forall i :: pos <= i < r.end - 2 ==> !ClosesAt(text, i)) &&
      (!r.terminated ==>
        (r.end == |text| || text[r.end] == '\0') &&
        forall i :: pos <= i < r.end ==> !ClosesAt(text, i))
    decreases |text| - pos
  {
    if Peek(text, pos) == '\0' {
    } else if text[pos] == '*' && Peek(text, pos + 1) == '/' {
    } else {
      BlockCommentEndSpans(text, pos + 1);
    }
  }

  /** One trivia: its kind, where it ends and its diagnostics. */
  datatype Piece = Piece(kind: SyntaxKind, end: nat, diagnostics: seq<SyntaxDiagnostic>)

  /** The trivia starting at `pos`, or `None` when a token (or the end) starts there. */
  function TriviaPiece(text: string, pos: nat): (r: Option<Piece>)
    requires pos <= |text|
    ensures r.Some? ==> pos < r.value.end <= |text|
  {
    var c := Peek(text, pos);
    if c == '/' && Peek(text, pos + 1) == '/' then
      Some(Piece(SingleLineCommentTrivia, LineEnd(text, pos + 2), []))
    else if c == '/' && Peek(text, pos + 1) == '*' then
      var s := BlockCommentEnd(text, pos + 2);
      Some(Piece(MultiLineCommentTrivia, s.end,
        if s.terminated then [] else [SyntaxDiagnostic(UnterminatedComment, 0, 2)]))
    else if c == '\r' || c == '\n' then
      Some(Piece(EndOfLineTrivia, LineBreakEnd(text, pos), []))
    else if IsInlineSpace(c) then
      Some(Piece(WhitespaceTrivia, WhitespaceEnd(text, pos), []))
    else
      None
  }

  datatype TriviaScan = TriviaScan(trivia: seq<Trivia>, end: nat)

  /**
   * The trivia list read from `pos`. Trailing trivia stops after the first
   * line break; leading trivia runs on to the next token.
   */
  function ScanTrivia(text: string, pos: nat, trailing: bool): (r: TriviaScan)
    requires pos <= |text|
    ensures pos <= r.end <= |text|
    decreases |text| - pos
  {
    match TriviaPiece(text, pos)
    case None => TriviaScan([], pos)
    case Some(p) =>
      var t := Trivia(p.kind, text[pos..p.end], p.diagnostics);
      if trailing && p.kind == EndOfLineTrivia then TriviaScan([t], p.end)
      else
        var rest := ScanTrivia(text, p.end, trailing);
        TriviaScan([t] + rest.trivia, rest.end)
  }

  // ---------------------------------------------------------------------------
  // Tokens

  datatype TokenScan = TokenScan(kind: SyntaxKind, end: nat, value: Value, diagnostics: seq<SyntaxDiagnostic>)

  /** The punctuation token at `pos`: the longest match, except that `>>` and `>>>` back off to `>`. */
  function ScanOperator(text: string, pos: nat): (r: (SyntaxKind, nat))
    requires pos < |text|
    ensures pos < r.1 <= |text|
  {
    var n1 := Peek(text, pos + 1);
    var n2 := Peek(text, pos + 2);
    match text[pos]
    case '.' => (PeriodToken, pos + 1)
    case ',' => (CommaToken, pos + 1)
    case '(' => (OpenParenToken, pos + 1)
    case ')' => (CloseParenToken, pos + 1)
    case '{' => (OpenBraceToken, pos + 1)
    case '}' => (CloseBraceToken, pos + 1)
    case '[' => (OpenBracketToken, pos + 1)
    case ']' => (CloseBracketToken, pos + 1)
    case ';' => (SemicolonToken, pos + 1)
    case ':' => (ColonToken, pos + 1)
    case '~' => (TildeToken, pos + 1)
    case '%' => if n1 == '=' then (PercentEqualsToken, pos + 2) else (PercentToken, pos + 1)
    case '^' => if n1 == '=' then (CaretEqualsToken, pos + 2) else (CaretToken, pos + 1)
    case '?' =>
      if n1 == '?' then
        (if n2 == '=' then (QuestionQuestionEqualsToken, pos + 3) else (QuestionQuestionToken, pos + 2))
      else if n1 == '.' then (QuestionPeriodToken, pos + 2)
      else if n1 == '[' then (QuestionOpenBracketToken, pos + 2)
      else (QuestionToken, pos + 1)
    case '+' =>
      if n1 == '=' then (PlusEqualsToken, pos + 2)
      else if n1 == '+' then (PlusPlusToken, pos + 2)
      else (PlusToken, pos + 1)
    case '-' =>
      if n1 == '=' then (MinusEqualsToken, pos + 2)
      else if n1 == '-' then (MinusMinusToken, pos + 2)
      else (MinusToken, pos + 1)
    case '/' => if n1 == '=' then (SlashEqualsToken, pos + 2) else (SlashToken, pos + 1)
    case '*' =>
      if n1 == '*' then
        (if n2 == '=' then (AsteriskAsteriskEqualsToken, pos + 3) else (AsteriskAsteriskToken, pos + 2))
      else if n1 == '=' then (AsteriskEqualsToken, pos + 2)
      else (AsteriskToken, pos + 1)
    case '&' =>
      if n1 == '&' then (AmpersandAmpersandToken, pos + 2)
      else if n1 == '=' then (AmpersandEqualsToken, pos + 2)
      else (AmpersandToken, pos + 1)
    case '|' =>
      if n1 == '|' then (PipePipeToken, pos + 2)
      else if n1 == '=' then (PipeEqualsToken, pos + 2)
      else (PipeToken, pos + 1)
    case '=' => if n1 == '=' then (EqualsEqualsToken, pos + 2) else (EqualsToken, pos + 1)
    case '!' => if n1 == '=' then (ExclamationEqualsToken, pos + 2) else (ExclamationToken, pos + 1)
    case '<' =>
      if n1 == '<' then
        (if n2 == '=' then (LessThanLessThanEqualsToken, pos + 3) else (LessThanLessThanToken, pos + 2))
      else if n1 == '=' then (LessThanEqualsToken, pos + 2)
      else (LessThanToken, pos + 1)
    case '>' =>
      if n1 == '=' then (GreaterThanEqualsToken, pos + 2)
      else if n1 == '>' && n2 == '=' then (GreaterThanGreaterThanEqualsToken, pos + 3)
      else if n1 == '>' && n2 == '>' && Peek(text, pos + 3) == '=' then
        (GreaterThanGreaterThanGreaterThanEqualsToken, pos + 4)
      else (GreaterThanToken, pos + 1)
    case _ => (BadToken, pos + 1)
  }

  /** Where an identifier (or keyword) starting at `pos` ends. */
  function IdentifierEnd(text: string, pos: nat): (end: nat)
    requires pos <= |text|
    ensures pos <= end <= |text|
    ensures forall i :: pos <= i < end ==> IsIdentifierPart(text[i])
    ensures end == |text| || !IsIdentifierPart(text[end])
    decreases |text| - pos
  {
    if pos < |text| && IsIdentifierPart(text[pos]) then IdentifierEnd(text, pos + 1) else pos
  }

  /** The character a backslash escape stands for. */
  function EscapedChar(c: char): Option<char>
  {
    match c
    case 'a' => Some(7 as char)
    case 'b' => Some(8 as char)
    case 'f' => Some(12 as char)
    case 'n' => Some('\n')
    case 'r' => Some('\r')
    case 't' => Some('\t')
    case 'v' => Some(11 as char)
    case '\'' => Some('\'')
    case '"' => Some('"')
    case '\\' => Some('\\')
    case _ => None
  }

  datatype StringScan = StringScan(end: nat, chars: string, diagnostics: seq<SyntaxDiagnostic>)

  /**
   * The body of a string (or character) literal from `pos` on, with the
   * characters read so far in `chars`; `start` is the opening quote.
   */
  function StringBody(text: string, start: nat, pos: nat, isChar: bool,
                      chars: string, diags: seq<SyntaxDiagnostic>): (r: StringScan)
    requires start < pos <= |text|
    ensures pos <= r.end <= |text|
    decreases |text| - pos
  {
    var c := Peek(text, pos);
    if c == '\0' || c == '\r' || c == '\n' then
      StringScan(pos, chars, diags + [SyntaxDiagnostic(UnterminatedString, 0, 1)])
    else if c == '"' && !isChar then
      if Peek(text, pos + 1) == '"' then StringBody(text, start, pos + 2, isChar, chars + ['"'], diags)
      else StringScan(pos + 1, chars, diags)
    else if c == '\'' && isChar then
      StringScan(pos + 1, chars, diags)
    else if c == '\\' then
      var e := Peek(text, pos + 1);
      match EscapedChar(e)
      case Some(x) => StringBody(text, start, pos + 2, isChar, chars + [x], diags)
      case None =>
        if e == '\0' then StringBody(text, start, pos + 1, isChar, chars, diags)
        else StringBody(text, start, pos + 1, isChar, chars,
          diags + [SyntaxDiagnostic(UnrecognizedEscapeSequence(e), pos - start, 2)])
    else
      StringBody(text, start, pos + 1, isChar, chars + [c], diags)
  }

  /** The value and the extra diagnostic of a literal whose body read `chars`. */
  function LiteralOfChars(chars: string, isChar: bool): (Value, seq<SyntaxDiagnostic>)
  {
    if !isChar then (StringValue(chars), [])
    else if |chars| == 0 then (NoValue, [SyntaxDiagnostic(EmptyCharacterLiteral, 0, 2)])
    else if |chars| > 1 then (CharValue(chars[0]), [SyntaxDiagnostic(CharacterLiteralTooLong, 0, |chars| + 2)])
    else (CharValue(chars[0]), [])
  }

  /** A string literal (`isChar == false`) or a character literal starting at `start`. */
  function ScanStringLiteral(text: string, start: nat, isChar: bool): (r: TokenScan)
    requires start < |text|
    ensures start < r.end <= |text|
  {
    var body := StringBody(text, start, start + 1, isChar, "", []);
    var (v, extra) := LiteralOfChars(body.chars, isChar);
    TokenScan(if isChar then CharacterLiteralToken else StringLiteralToken, body.end, v, body.diagnostics + extra)
  }

  // ---------------------------------------------------------------------------
  // Numeric literals

  datatype NumberState = NumberState(
    hasDecimal: bool, hasExponent: bool, isBinary: bool, isHex: bool, previous: Option<char>)

  /**
   * A digit of the literal's base. The source's test reads
   * `isBinary && c == '0' || c == '1'`, which groups as written here; since `1`
   * is a digit of every base the grouping changes nothing.
   */
  predicate IsValidDigit(st: NumberState, c: char)
  {
    (st.isBinary && c == '0') || c == '1' || (st.isHex && IsHexDigit(c)) ||
    (!st.isBinary && !st.isHex && IsAsciiDigit(c))
  }

  /** An exponent letter, optionally signed, followed by a digit. */
  predicate StartsExponent(text: string, pos: nat, st: NumberState)
  {
    var la := Peek(text, pos + 1);
    ToLowerChar(Peek(text, pos)) == 'e' && !st.isBinary && !st.isHex && !st.hasExponent &&
    (((la == '-' || la == '+') && IsValidDigit(st, Peek(text, pos + 2))) || IsValidDigit(st, la))
  }

  /** A sign may follow the exponent letter, and only it. */
  predicate ExponentSignAllowed(st: NumberState)
  {
    st.hasExponent && st.previous.Some? && ToLowerChar(st.previous.value) == 'e'
  }

  datatype NumberRun = NumberRun(end: nat, state: NumberState)

  /** The characters of a numeric literal from `pos` on (the corrected sign rule). */
  function ScanDigits(text: string, pos: nat, st: NumberState): (r: NumberRun)
    requires pos <= |text|
    ensures pos <= r.end <= |text|
    ensures st.isBinary == r.state.isBinary && st.isHex == r.state.isHex
    decreases |text| - pos
  {
    var c := Peek(text, pos);
    if c == '.' && !st.isBinary && !st.isHex && !st.hasDecimal && !st.hasExponent then
      ScanDigits(text, pos + 1, st.(hasDecimal := true, previous := Some(c)))
    else if StartsExponent(text, pos, st) then
      ScanDigits(text, pos + 1, st.(hasExponent := true, previous := Some(c)))
    else if (c == '-' || c == '+') && ExponentSignAllowed(st) then
      ScanDigits(text, pos + 1, st.(previous := Some(c)))
    else if c == '_' && st.previous.Some? && IsValidDigit(st, Peek(text, pos + 1)) then
      ScanDigits(text, pos + 1, st.(previous := Some(c)))
    else if IsValidDigit(st, c) then
      ScanDigits(text, pos + 1, st.(previous := Some(c)))
    else
      NumberRun(pos, st)
  }

  /**
   * The loop as written: a sign is taken after any `e`, including a
   * hexadecimal digit, and a sign met before any character was read asks for
   * the value of an empty `char?`, which throws.
   */
  function ScanDigitsAsWritten(text: string, pos: nat, st: NumberState): (r: Result<NumberRun>)
    requires pos <= |text|
    ensures r.Ok? ==> pos <= r.value.end <= |text|
    decreases |text| - pos
  {
    var c := Peek(text, pos);
    if c == '.' && !st.isBinary && !st.isHex && !st.hasDecimal && !st.hasExponent then
      ScanDigitsAsWritten(text, pos + 1, st.(hasDecimal := true, previous := Some(c)))
    else if StartsExponent(text, pos, st) then
      ScanDigitsAsWritten(text, pos + 1, st.(hasExponent := true, previous := Some(c)))
    else if c == '-' || c == '+' then
      if st.previous.None? then Fail("InvalidOperationException: Nullable object must have a value.")
      else if ToLowerChar(st.previous.value) == 'e' then ScanDigitsAsWritten(text, pos + 1, st.(previous := Some(c)))
      else Ok(NumberRun(pos, st))
    else if c == '_' && st.previous.Some? && IsValidDigit(st, Peek(text, pos + 1)) then
      ScanDigitsAsWritten(text, pos + 1, st.(previous := Some(c)))
    else if IsValidDigit(st, c) then
      ScanDigitsAsWritten(text, pos + 1, st.(previous := Some(c)))
    else
      Ok(NumberRun(pos, st))
  }

  /** The value of a digit character (0 for anything else). */
  function DigitValue(c: char): nat
  {
    if IsAsciiDigit(c) then c as nat - '0' as nat
    else if 'a' <= c <= 'f' then c as nat - 'a' as nat + 10
    else if 'A' <= c <= 'F' then c as nat - 'A' as nat + 10
    else 0
  }

  predicate IsDigitOfBase(c: char, base: nat)
  {
    if base == 2 then c == '0' || c == '1'
    else if base == 16 then IsHexDigit(c)
    else IsAsciiDigit(c)
  }

  /** The number the digits spell in `base`, most significant first. */
  function DigitsValue(s: string, base: nat): nat
  {
    if s == [] then 0 else DigitsValue(s[..|s| - 1], base) * base + DigitValue(s[|s| - 1])
  }

  const TwoTo31: int := 0x8000_0000
  const TwoTo32: int := 0x1_0000_0000

  /**
   * `Convert.ToInt32(s, base)` for base 2 or 16: the digits are read as an
   * unsigned 32-bit pattern and reinterpreted as a signed int; `None` stands
   * for the format and overflow exceptions.
   */
  function ConvertToInt32(s: string, base: nat): (r: Option<int>)
    ensures r.Some? ==> -TwoTo31 <= r.value < TwoTo31
    ensures r.Some? ==> DigitsValue(s, base) < TwoTo32 && (DigitsValue(s, base) - r.value) % TwoTo32 == 0
    ensures r.None? <==> |s| == 0 || (exists i :: 0 <= i < |s| && !IsDigitOfBase(s[i], base)) ||
                         DigitsValue(s, base) >= TwoTo32
  {
    if |s| == 0 || exists i :: 0 <= i < |s| && !IsDigitOfBase(s[i], base) then None
    else
      var v := DigitsValue(s, base);
      if v >= TwoTo32 then None
      else if v >= TwoTo31 then Some(v - TwoTo32)
      else Some(v)
  }

  /** `int.TryParse` on the digit strings a decimal literal produces. */
  function Int32TryParse(s: string): (r: Option<int>)
    ensures r.Some? ==> 0 <= r.value < TwoTo31 && r.value == DigitsValue(s, 10)
    ensures r.None? <==> |s| == 0 || (exists i :: 0 <= i < |s| && !IsAsciiDigit(s[i])) ||
                         DigitsValue(s, 10) >= TwoTo31
  {
    if |s| == 0 || exists i :: 0 <= i < |s| && !IsAsciiDigit(s[i]) then None
    else if DigitsValue(s, 10) < TwoTo31 then Some(DigitsValue(s, 10))
    else None
  }

  /** The text with every `_` removed. */
  function RemoveUnderscores(s: string): (r: string)
    ensures '_' !in r
    ensures |r| <= |s|
  {
    if s == [] then []
    else if s[0] == '_' then RemoveUnderscores(s[1..])
    else [s[0]] + RemoveUnderscores(s[1..])
  }

  /** The value of a scanned numeric literal, or the diagnostic that it is not a valid int. */
  function NumberValue(lit: string, st: NumberState): (Value, seq<SyntaxDiagnostic>)
  {
    var parsed := RemoveUnderscores(lit);
    if !st.hasDecimal && !st.hasExponent then
      var v :=
        if st.isBinary || st.isHex then
          // the prefix `0b` / `0x` survives in `parsed`, so its length is at least 2 here
          (if |lit| > 2 && |parsed| >= 2 then ConvertToInt32(parsed[2..], if st.isBinary then 2 else 16)
           else None)
        else Int32TryParse(parsed);
      match v
      case None => (NoValue, [SyntaxDiagnostic(InvalidType(lit, "int"), 0, |lit|)])
      case Some(n) => (IntValue(n), [])
    else
      (DecimalValue(parsed), [])
  }

  /** The state after the `0b` / `0x` prefix test. */
  function NumberStart(text: string, start: nat): NumberState
  {
    var la := ToLowerChar(Peek(text, start + 1));
    var prefixed := Peek(text, start) == '0' && (la == 'b' || la == 'x');
    NumberState(false, false, prefixed && la == 'b', prefixed && la == 'x', None)
  }

  /** A numeric literal starting at the digit at `start`. */
  function ScanNumber(text: string, start: nat): (r: TokenScan)
    requires start < |text|
    requires IsAsciiDigit(text[start])
    ensures start < r.end <= |text|
  {
    var st := NumberStart(text, start);
    var run := ScanDigits(text, if st.isBinary || st.isHex then start + 2 else start, st);
    assert run.end > start by {
      if !(st.isBinary || st.isHex) {
        assert IsValidDigit(st, text[start]);
      }
    }
    var (v, ds) := NumberValue(text[start..run.end], run.state);
    TokenScan(NumericLiteralToken, run.end, v, ds)
  }

  /** The same literal with the loop as written; `Fail` is the exception it throws. */
  function ScanNumberAsWritten(text: string, start: nat): (r: Result<TokenScan>)
    requires start < |text|
    requires IsAsciiDigit(text[start])
  {
    var st := NumberStart(text, start);
    match ScanDigitsAsWritten(text, if st.isBinary || st.isHex then start + 2 else start, st)
    case Fail(e) => Fail(e)
    case Ok(run) =>
      var (v, ds) := NumberValue(text[start..run.end], run.state);
      Ok(TokenScan(NumericLiteralToken, run.end, v, ds))
  }

  // ---------------------------------------------------------------------------
  // One token, one lexed token, and the bad-token loop

  /** The token starting at `pos` (no trivia). */
  function ScanToken(text: string, pos: nat): (r: TokenScan)
    requires pos <= |text|
    ensures pos <= r.end <= |text|
  {
    var c := Peek(text, pos);
    if c == '\0' then TokenScan(EndOfFileToken, pos, NoValue, [])
    else if IsOperatorStart(c) then
      var (k, e) := ScanOperator(text, pos);
      TokenScan(k, e, NoValue, [])
    else if c == '"' || c == '\'' then ScanStringLiteral(text, pos, c == '\'')
    else if IsAsciiDigit(c) then ScanNumber(text, pos)
    else if c == '_' || IsLetter(c) then
      var e := IdentifierEnd(text, pos);
      TokenScan(KeywordKind(text[pos..e]), e, NoValue, [])
    else TokenScan(BadToken, pos + 1, NoValue, [SyntaxDiagnostic(BadCharacter(c), 0, 1)])
  }

  datatype Lexed = Lexed(token: Token, end: nat)

  /** Leading trivia, one token, trailing trivia. */
  function LexInternal(text: string, pos: nat): (r: Lexed)
    requires pos <= |text|
  {
    var lead := ScanTrivia(text, pos, false);
    var ts := ScanToken(text, lead.end);
    var trail := ScanTrivia(text, ts.end, true);
    var tokenText := GetText(ts.kind).GetOr(text[lead.end..ts.end]);
    Lexed(Token(ts.kind, Some(tokenText), ts.value, lead.trivia, trail.trivia,
                Shift(ts.diagnostics, lead.end - pos)),
          trail.end)
  }

  /** The trivia a skipped bad token contributes: its own trivia around it. */
  function SkippedTrivia(bad: seq<Token>): seq<Trivia>
  {
    if bad == [] then []
    else
      var last := bad[|bad| - 1];
      SkippedTrivia(bad[..|bad| - 1]) + (last.leading + [SkippedTokens(last)] + last.trailing)
  }

  /** Lex tokens from `pos`, collecting bad tokens into the next good token's leading trivia. */
  function LexFrom(text: string, pos: nat, bad: seq<Token>): (r: Lexed)
    requires pos <= |text|
    ensures pos <= r.end <= |text|
    ensures r.token.kind != BadToken
    decreases |text| - pos
  {
    var l := LexInternal(text, pos);
    LexInternalBounds(text, pos);
    if l.token.kind == BadToken then LexFrom(text, l.end, bad + [l.token])
    else if |bad| > 0 then
      Lexed(l.token.(leading := SkippedTrivia(bad) + l.token.leading), l.end)
    else l
  }

  /** The next token from `pos`. */
  function LexNext(text: string, pos: nat): (r: Lexed)
    requires pos <= |text|
    ensures pos <= r.end <= |text|
    ensures r.token.kind != BadToken
  {
    LexFrom(text, pos, [])
  }

  // ---------------------------------------------------------------------------
  // Properties

  /** A token read at `pos` lies within the text, and only the end-of-file token is empty. */
  lemma ScanTokenBounds(text: string, pos: nat)
    requires pos <= |text|
    ensures ScanToken(text, pos).end == pos <==> ScanToken(text, pos).kind == EndOfFileToken
  {
    var c := Peek(text, pos);
    if c == '\0' {
    } else if IsOperatorStart(c) {
    } else if c == '"' || c == '\'' {
    } else if IsAsciiDigit(c) {
    } else if c == '_' || IsLetter(c) {
      KeywordKindRoundTrip(text[pos..IdentifierEnd(text, pos)]);
    }
  }

  /** The lexed token's end lies past `pos`, except at the end of the text. */
  lemma LexInternalBounds(text: string, pos: nat)
    requires pos <= |text|
    ensures pos <= LexInternal(text, pos).end <= |text|
    ensures LexInternal(text, pos).token.kind == BadToken ==> pos < LexInternal(text, pos).end
  {
    var lead := ScanTrivia(text, pos, false);
    ScanTokenBounds(text, lead.end);
  }
}
