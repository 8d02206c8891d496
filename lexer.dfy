/**
 * The lexer as the compiler runs it: an object over the source text whose
 * reading routines move `position` forward character by character, set the
 * kind and value of what they read, record diagnostics and append trivia to
 * two caches. Every routine is proved to agree with the matching function of
 * `LexerSpec`, so the properties proved there hold of the object.
 */
module Lexer {
  import opened Wrappers
  import opened Strings
  import opened SyntaxFacts
  import opened LexerSpec
  import LexerProperties

  class Lexer {
    const text: string
    /** The next character not yet read. */
    var position: nat
    /** Where the token or trivia being read starts. */
    var start: nat
    var kind: SyntaxKind
    var value: Value
    /** Diagnostics of the token or trivia being read, offsets relative to `start`. */
    var diagnostics: seq<SyntaxDiagnostic>
    var leadingTrivia: seq<Trivia>
    var trailingTrivia: seq<Trivia>

    constructor (text: string)
      ensures this.text == text && position == 0 && diagnostics == []
      ensures leadingTrivia == [] && trailingTrivia == []
    {
      this.text := text;
      position := 0;
      start := 0;
      kind := BadToken;
      value := NoValue;
      diagnostics := [];
      leadingTrivia := [];
      trailingTrivia := [];
    }

    /** The character `offset` places after `position`, `'\0'` past the end. */
    function PeekAt(offset: nat): (c: char)
      reads this
      ensures position + offset >= |text| ==> c == '\0'
      ensures position + offset < |text| ==> c == text[position + offset]
    {
      Peek(text, position + offset)
    }

    function Current(): char
      reads this
    {
      PeekAt(0)
    }

    function Lookahead(): char
      reads this
    {
      PeekAt(1)
    }

    /** Records a diagnostic at text index `at`, relative to the start of what is being read. */
    method AddDiagnostic(error: LexError, at: nat, width: nat)
      modifies this`diagnostics
      ensures diagnostics == old(diagnostics) + [SyntaxDiagnostic(error, at - start, width)]
    {
      diagnostics := diagnostics + [SyntaxDiagnostic(error, at - start, width)];
    }

    /** Steps over the current character when it is `c`. */
    method AdvanceIfMatches(c: char) returns (matched: bool)
      requires position <= |text| && c != '\0'
      modifies this`position
      ensures matched == (old(Current()) == c)
      ensures position == if matched then old(position) + 1 else old(position)
      ensures position <= |text|
    {
      matched := Current() == c;
      if matched {
        position := position + 1;
      }
    }

    // -------------------------------------------------------------------------
    // Trivia

    method ReadWhitespace()
      requires position <= |text|
      modifies this`position, this`kind
      ensures position == WhitespaceEnd(text, old(position))
      ensures kind == WhitespaceTrivia
    {
      ghost var end := WhitespaceEnd(text, position);
      while position < |text| && IsInlineSpace(text[position])
        invariant position <= |text|
        invariant WhitespaceEnd(text, position) == end
        decreases |text| - position
      {
        position := position + 1;
      }
      kind := WhitespaceTrivia;
    }

    method ReadLineBreak()
      requires position <= |text|
      modifies this`position, this`kind
      ensures position == LineBreakEnd(text, old(position))
      ensures kind == EndOfLineTrivia
    {
      if Current() == '\r' && Lookahead() == '\n' {
        position := position + 2;
      } else {
        position := position + 1;
      }
      kind := EndOfLineTrivia;
    }

    method ReadSingleLineComment()
      requires position + 2 <= |text|
      modifies this`position, this`kind
      ensures position == LineEnd(text, old(position) + 2)
      ensures kind == SingleLineCommentTrivia
    {
      position := position + 2;
      ghost var end := LineEnd(text, position);
      var done := false;
      while !done
        invariant position <= |text|
        invariant !done ==> LineEnd(text, position) == end
        invariant done ==> position == end
        decreases |text| - position, !done
      {
        var c := Current();
        if c == '\r' || c == '\n' || c == '\0' {
          done := true;
        } else {
          position := position + 1;
        }
      }
      kind := SingleLineCommentTrivia;
    }

    method ReadMultiLineComment()
      requires position + 2 <= |text|
      modifies this`position, this`kind, this`diagnostics
      ensures var s := BlockCommentEnd(text, old(position) + 2);
        position == s.end &&
        diagnostics == old(diagnostics) + (if s.terminated then [] else [SyntaxDiagnostic(UnterminatedComment, 0, 2)])
      ensures kind == MultiLineCommentTrivia
    {
      position := position + 2;
      ghost var s := BlockCommentEnd(text, position);
      var done := false;
      while !done
        invariant position <= |text|
        invariant !done ==> BlockCommentEnd(text, position) == s && diagnostics == old(diagnostics)
        invariant done ==> (position == s.end &&
          diagnostics == old(diagnostics) + (if s.terminated then [] else [SyntaxDiagnostic(UnterminatedComment, 0, 2)]))
        decreases |text| - position, !done
      {
        var c := Current();
        if c == '\0' {
          AddDiagnostic(UnterminatedComment, start, 2);
          done := true;
        } else if c == '*' && Lookahead() == '/' {
          position := position + 2;
          done := true;
        } else {
          position := position + 1;
        }
      }
      kind := MultiLineCommentTrivia;
    }

    /**
     * One trivia at `position`, with the decision of the trivia loop: it
     * stops before a token or the end of the text, and trailing trivia stops
     * after a line break.
     */
    method ReadTriviaPiece(isTrailing: bool) returns (done: bool)
      requires position <= |text| && diagnostics == []
      modifies this`position, this`start, this`kind, this`value, this`diagnostics
      ensures start == old(position) && value == NoValue
      ensures PieceOutcome(TriviaPiece(text, old(position)), old(position), isTrailing, position, kind, diagnostics, done)
    {
      start := position;
      kind := BadToken;
      value := NoValue;
      done := false;
      var c := Current();
      if c == '/' {
        done := ReadComment(isTrailing);
      } else if c == '\r' || c == '\n' {
        if isTrailing {
          done := true;
        }
        ReadLineBreak();
      } else if IsInlineSpace(c) {
        ReadWhitespace();
      } else {
        NoTriviaPiece(text, start);
        done := true;
      }
    }

    /** The `/` branch of `ReadTriviaPiece`: a comment, or no trivia at all. */
    method ReadComment(isTrailing: bool) returns (done: bool)
      requires start == position < |text| && text[position] == '/' && diagnostics == []
      modifies this`position, this`kind, this`diagnostics
      ensures PieceOutcome(TriviaPiece(text, old(position)), old(position), isTrailing, position, kind, diagnostics, done)
    {
      done := false;
      if Lookahead() == '/' {
        ReadSingleLineComment();
      } else if Lookahead() == '*' {
        ghost var s := BlockCommentEnd(text, start + 2);
        ReadMultiLineComment();
        assert diagnostics == if s.terminated then [] else [SyntaxDiagnostic(UnterminatedComment, 0, 2)];
      } else {
        NoTriviaPiece(text, start);
        done := true;
      }
    }

    /**
     * Reads trivia into the leading or trailing cache. Each trivia takes the
     * diagnostics recorded while reading it, so none are left over.
     */
    method ReadTrivia(isTrailing: bool)
      requires position <= |text| && diagnostics == []
      modifies this`position, this`start, this`kind, this`value, this`diagnostics,
               this`leadingTrivia, this`trailingTrivia
      ensures var r := ScanTrivia(text, old(position), isTrailing);
        position == r.end &&
        (if isTrailing then trailingTrivia == old(trailingTrivia) + r.trivia && leadingTrivia == old(leadingTrivia)
         else leadingTrivia == old(leadingTrivia) + r.trivia && trailingTrivia == old(trailingTrivia))
      ensures diagnostics == [] && value == NoValue
    {
      ghost var r := ScanTrivia(text, position, isTrailing);
      ghost var read: seq<Trivia> := [];
      ghost var base, other := Cache(isTrailing), Cache(!isTrailing);
      value := NoValue;
      var done := false;
      while !done
        invariant position <= |text| && diagnostics == [] && value == NoValue
        invariant Cache(isTrailing) == base + read && Cache(!isTrailing) == other
        invariant r == TriviaLoop(text, read, position, done, isTrailing)
        decreases |text| - position, !done
      {
        ghost var before := position;
        done := ReadTriviaPiece(isTrailing);
        TriviaLoopStep(text, before, isTrailing, read, position, kind, diagnostics, done);
        if position - start > 0 {
          var t := Trivia(kind, text[start..position], diagnostics);
          AddTrivia(t, isTrailing);
          AppendOne(base, read, t);
          read := read + [t];
          diagnostics := [];
        }
      }
    }

    /** The trailing trivia cache, or the leading one. */
    function Cache(isTrailing: bool): seq<Trivia>
      reads this
    {
      if isTrailing then trailingTrivia else leadingTrivia
    }

    /** Appends one trivia to the leading or the trailing cache. */
    method AddTrivia(t: Trivia, isTrailing: bool)
      modifies this`leadingTrivia, this`trailingTrivia
      ensures Cache(isTrailing) == old(Cache(isTrailing)) + [t] && Cache(!isTrailing) == old(Cache(!isTrailing))
    {
      if isTrailing {
        trailingTrivia := trailingTrivia + [t];
      } else {
        leadingTrivia := leadingTrivia + [t];
      }
    }

    // -------------------------------------------------------------------------
    // Tokens

    /** Punctuation: the longest match, with `>>` and `>>>` backed off to `>`. */
    method ReadPunctuation()
      requires position < |text| && IsOperatorStart(text[position])
      modifies this`position, this`kind
      ensures (kind, position) == ScanOperator(text, old(position))
    {
      var c := Current();
      position := position + 1;
      var m: bool;
      match c
      case '.' => kind := PeriodToken;
      case ',' => kind := CommaToken;
      case '(' => kind := OpenParenToken;
      case ')' => kind := CloseParenToken;
      case '{' => kind := OpenBraceToken;
      case '}' => kind := CloseBraceToken;
      case '[' => kind := OpenBracketToken;
      case ']' => kind := CloseBracketToken;
      case ';' => kind := SemicolonToken;
      case ':' => kind := ColonToken;
      case '~' => kind := TildeToken;
      case '%' =>
        m := AdvanceIfMatches('=');
        kind := if m then PercentEqualsToken else PercentToken;
      case '^' =>
        m := AdvanceIfMatches('=');
        kind := if m then CaretEqualsToken else CaretToken;
      case '?' =>
        m := AdvanceIfMatches('?');
        if m {
          m := AdvanceIfMatches('=');
          kind := if m then QuestionQuestionEqualsToken else QuestionQuestionToken;
        } else {
          m := AdvanceIfMatches('.');
          if m {
            kind := QuestionPeriodToken;
          } else {
            m := AdvanceIfMatches('[');
            kind := if m then QuestionOpenBracketToken else QuestionToken;
          }
        }
      case '+' =>
        m := AdvanceIfMatches('=');
        if m {
          kind := PlusEqualsToken;
        } else {
          m := AdvanceIfMatches('+');
          kind := if m then PlusPlusToken else PlusToken;
        }
      case '-' =>
        m := AdvanceIfMatches('=');
        if m {
          kind := MinusEqualsToken;
        } else {
          m := AdvanceIfMatches('-');
          kind := if m then MinusMinusToken else MinusToken;
        }
      case '/' =>
        m := AdvanceIfMatches('=');
        kind := if m then SlashEqualsToken else SlashToken;
      case '*' =>
        m := AdvanceIfMatches('*');
        if m {
          m := AdvanceIfMatches('=');
          kind := if m then AsteriskAsteriskEqualsToken else AsteriskAsteriskToken;
        } else {
          m := AdvanceIfMatches('=');
          kind := if m then AsteriskEqualsToken else AsteriskToken;
        }
      case '&' =>
        m := AdvanceIfMatches('&');
        if m {
          kind := AmpersandAmpersandToken;
        } else {
          m := AdvanceIfMatches('=');
          kind := if m then AmpersandEqualsToken else AmpersandToken;
        }
      case '|' =>
        m := AdvanceIfMatches('|');
        if m {
          kind := PipePipeToken;
        } else {
          m := AdvanceIfMatches('=');
          kind := if m then PipeEqualsToken else PipeToken;
        }
      case '=' =>
        m := AdvanceIfMatches('=');
        kind := if m then EqualsEqualsToken else EqualsToken;
      case '!' =>
        m := AdvanceIfMatches('=');
        kind := if m then ExclamationEqualsToken else ExclamationToken;
      case '<' =>
        m := AdvanceIfMatches('<');
        if m {
          m := AdvanceIfMatches('=');
          kind := if m then LessThanLessThanEqualsToken else LessThanLessThanToken;
        } else {
          m := AdvanceIfMatches('=');
          kind := if m then LessThanEqualsToken else LessThanToken;
        }
      case '>' =>
        ReadGreaterThan();
    }

    /** After a `>`: `>=`, `>>=` and `>>>=` are whole tokens, anything else backs off to `>`. */
    method ReadGreaterThan()
      requires 0 < position <= |text| && text[position - 1] == '>'
      modifies this`position, this`kind
      ensures (kind, position) == ScanOperator(text, old(position) - 1)
    {
      kind := GreaterThanToken;
      var m := AdvanceIfMatches('=');
      if m {
        kind := GreaterThanEqualsToken;
      } else {
        m := AdvanceIfMatches('>');
        if m {
          m := AdvanceIfMatches('=');
          if m {
            kind := GreaterThanGreaterThanEqualsToken;
          } else {
            m := AdvanceIfMatches('>');
            if m {
              m := AdvanceIfMatches('=');
              if m {
                kind := GreaterThanGreaterThanGreaterThanEqualsToken;
              } else {
                position := position - 2;
              }
            } else {
              position := position - 1;
            }
          }
        }
      }
    }

    /** A string or character literal; `start` is its opening quote. */
    method ReadStringLiteral(isChar: bool)
      requires start == position < |text|
      modifies this`position, this`kind, this`value, this`diagnostics
      ensures var r := ScanStringLiteral(text, old(position), isChar);
        kind == r.kind && position == r.end && value == r.value &&
        diagnostics == old(diagnostics) + r.diagnostics
    {
      position := position + 1;
      var chars := ReadStringBody(isChar);
      ghost var body := StringBody(text, start, start + 1, isChar, "", []);
      kind := if isChar then CharacterLiteralToken else StringLiteralToken;
      if isChar {
        SetCharacterValue(chars);
      } else {
        value := StringValue(chars);
      }
      assert diagnostics == old(diagnostics) + (body.diagnostics + LiteralOfChars(chars, isChar).1);
    }

    /** The value of a character literal whose body read `chars`, and its diagnostic if it is not one character. */
    method SetCharacterValue(chars: string)
      modifies this`value, this`diagnostics
      ensures value == LiteralOfChars(chars, true).0
      ensures diagnostics == old(diagnostics) + LiteralOfChars(chars, true).1
    {
      if |chars| == 0 {
        AddDiagnostic(EmptyCharacterLiteral, start, 2);
        value := NoValue;
      } else if |chars| > 1 {
        AddDiagnostic(CharacterLiteralTooLong, start, |chars| + 2);
        value := CharValue(chars[0]);
      } else {
        value := CharValue(chars[0]);
      }
    }

    /**
     * The characters of a literal up to its closing quote, or up to the end of
     * the line where it is unterminated.
     */
    method ReadStringBody(isChar: bool) returns (chars: string)
      requires start < position <= |text|
      modifies this`position, this`diagnostics
      ensures var b := StringBody(text, start, old(position), isChar, "", []);
        position == b.end && chars == b.chars && diagnostics == old(diagnostics) + b.diagnostics
    {
      ghost var r := StringBody(text, start, position, isChar, "", []);
      ghost var added: seq<SyntaxDiagnostic> := [];
      chars := "";
      var done := false;
      while !done
        invariant start < position <= |text|
        invariant diagnostics == old(diagnostics) + added
        invariant r == StringLoop(text, start, position, isChar, chars, added, done)
        decreases |text| - position, !done
      {
        var c := Current();
        if c == '\0' || c == '\r' || c == '\n' {
          AddDiagnostic(UnterminatedString, start, 1);
          added := added + [SyntaxDiagnostic(UnterminatedString, 0, 1)];
          done := true;
        } else if c == '"' && !isChar {
          if Lookahead() == '"' {
            chars := chars + [c];
            position := position + 2;
          } else {
            position := position + 1;
            done := true;
          }
        } else if c == '\'' && isChar {
          position := position + 1;
          done := true;
        } else if c == '\\' {
          position := position + 1;
          var e := Current();
          var x := EscapedChar(e);
          if x.Some? {
            chars := chars + [x.value];
            position := position + 1;
          } else if e != '\0' {
            AddDiagnostic(UnrecognizedEscapeSequence(e), position - 1, 2);
            added := added + [SyntaxDiagnostic(UnrecognizedEscapeSequence(e), position - 1 - start, 2)];
          }
        } else {
          chars := chars + [c];
          position := position + 1;
        }
      }
    }

    /** A numeric literal; `start` is its first digit. */
    method ReadNumericLiteral()
      requires start == position < |text| && IsAsciiDigit(text[position])
      modifies this`position, this`kind, this`value, this`diagnostics
      ensures var r := ScanNumber(text, old(position));
        kind == r.kind && position == r.end && value == r.value &&
        diagnostics == old(diagnostics) + r.diagnostics
    {
      var st0 := ReadNumberPrefix();
      var st := ReadDigits(st0);
      var nv := NumberValue(text[start..position], st);
      NumberScanned(text, start, position, st);
      value := nv.0;
      diagnostics := diagnostics + nv.1;
      kind := NumericLiteralToken;
    }

    /** The `0b` or `0x` prefix: skipped, and recorded in the initial state. */
    method ReadNumberPrefix() returns (st: NumberState)
      requires start == position < |text|
      modifies this`position
      ensures st == NumberStart(text, start)
      ensures position == if st.isBinary || st.isHex then start + 2 else start
    {
      var isBinary, isHex := false, false;
      if Current() == '0' {
        if ToLowerChar(Lookahead()) == 'b' {
          isBinary := true;
          position := position + 2;
        } else if ToLowerChar(Lookahead()) == 'x' {
          isHex := true;
          position := position + 2;
        }
      }
      st := NumberState(false, false, isBinary, isHex, None);
    }

    /**
     * The digits, separators, decimal point and exponent of a numeric
     * literal, from the current position on; `st` is what the loop has seen.
     */
    method ReadDigits(st0: NumberState) returns (st: NumberState)
      requires position <= |text|
      modifies this`position
      ensures ScanDigits(text, old(position), st0) == NumberRun(position, st)
    {
      st := st0;
      while true
        invariant position <= |text|
        invariant ScanDigits(text, position, st) == ScanDigits(text, old(position), st0)
        decreases |text| - position
      {
        var c := Current();
        if c == '.' && !st.isBinary && !st.isHex && !st.hasDecimal && !st.hasExponent {
          st := st.(hasDecimal := true);
        } else if StartsExponent(text, position, st) {
          st := st.(hasExponent := true);
        } else if (c == '-' || c == '+') && ExponentSignAllowed(st) {
        } else if c == '_' && st.previous.Some? && IsValidDigit(st, Lookahead()) {
        } else if IsValidDigit(st, c) {
        } else {
          assert ScanDigits(text, position, st) == NumberRun(position, st);
          break;
        }
        position := position + 1;
        st := st.(previous := Some(c));
      }
    }

    method ReadIdentifierOrKeyword()
      requires start == position <= |text|
      modifies this`position, this`kind
      ensures position == IdentifierEnd(text, old(position))
      ensures kind == KeywordKind(text[old(position)..position])
    {
      ghost var end := IdentifierEnd(text, position);
      while position < |text| && IsIdentifierPart(text[position])
        invariant start <= position <= |text|
        invariant IdentifierEnd(text, position) == end
        decreases |text| - position
      {
        position := position + 1;
      }
      kind := KeywordKind(text[start..position]);
    }

    /** One token without its trivia. */
    method ReadToken()
      requires position <= |text|
      modifies this`position, this`start, this`kind, this`value, this`diagnostics
      ensures var r := ScanToken(text, old(position));
        start == old(position) && position == r.end && kind == r.kind && value == r.value &&
        diagnostics == old(diagnostics) + r.diagnostics
    {
      ghost var d0 := diagnostics;
      start := position;
      kind := BadToken;
      value := NoValue;
      var c := Current();
      if c == '\0' {
        kind := EndOfFileToken;
        assert diagnostics == d0 + ScanToken(text, start).diagnostics;
      } else if IsOperatorStart(c) {
        LexerProperties.ScanTokenAtOperator(text, start);
        ReadPunctuation();
        assert diagnostics == d0 + ScanToken(text, start).diagnostics;
      } else if c == '"' || c == '\'' {
        LexerProperties.ScanTokenAtQuote(text, start);
        ReadStringLiteral(c == '\'');
        assert diagnostics == d0 + ScanToken(text, start).diagnostics;
      } else if IsAsciiDigit(c) {
        LexerProperties.ScanTokenAtDigit(text, start);
        ReadNumericLiteral();
        assert diagnostics == d0 + ScanToken(text, start).diagnostics;
      } else if c == '_' || IsLetter(c) {
        LexerProperties.ScanTokenAtLetter(text, start);
        ReadIdentifierOrKeyword();
        assert diagnostics == d0 + ScanToken(text, start).diagnostics;
      } else {
        LexerProperties.BadCharacterToken(text, start);
        AddDiagnostic(BadCharacter(c), position, 1);
        position := position + 1;
        assert diagnostics == d0 + ScanToken(text, start).diagnostics;
      }
    }

    // -------------------------------------------------------------------------
    // Whole tokens

    /** The total width of a trivia list. */
    static function FullWidth(ts: seq<Trivia>): (w: nat)
      ensures w == |TriviaListText(ts)|
    {
      |TriviaListText(ts)|
    }

    /** The diagnostics recorded so far, moved past the leading trivia, and the list cleared. */
    method GetDiagnostics(leadingWidth: nat) returns (ds: seq<SyntaxDiagnostic>)
      modifies this`diagnostics
      ensures ds == Shift(old(diagnostics), leadingWidth) && diagnostics == []
    {
      if leadingWidth > 0 {
        ds := Shift(diagnostics, leadingWidth);
      } else {
        ds := diagnostics;
        assert ds == Shift(diagnostics, 0);
      }
      diagnostics := [];
    }

    /** Leading trivia, a token and its trailing trivia. */
    method LexNextInternal() returns (token: Token)
      requires position <= |text| && diagnostics == []
      modifies this`position, this`start, this`kind, this`value, this`diagnostics,
               this`leadingTrivia, this`trailingTrivia
      ensures token == LexInternal(text, old(position)).token && position == LexInternal(text, old(position)).end
      ensures position <= |text| && diagnostics == []
    {
      ghost var pos := position;
      ghost var lead := ScanTrivia(text, pos, false);
      var leadingWidth := ReadLeadingTrivia();
      ghost var ts := ScanToken(text, lead.end);
      var tokenKind, tokenValue, tokenText, ds := ReadTokenAndDiagnostics(leadingWidth);
      ReadTrailingTrivia();
      token := Token(tokenKind, Some(tokenText), tokenValue, leadingTrivia, trailingTrivia, ds);
      LexInternalParts(text, pos, lead, ts, ScanTrivia(text, ts.end, true), leadingWidth);
    }

    /** Clears the leading cache and reads the leading trivia; returns its width. */
    method ReadLeadingTrivia() returns (width: nat)
      requires position <= |text| && diagnostics == []
      modifies this`position, this`start, this`kind, this`value, this`diagnostics,
               this`leadingTrivia, this`trailingTrivia
      ensures var lead := ScanTrivia(text, old(position), false);
        leadingTrivia == lead.trivia && position == lead.end && width == lead.end - old(position)
      ensures diagnostics == [] && trailingTrivia == old(trailingTrivia)
    {
      ghost var pos := position;
      leadingTrivia := [];
      ReadTrivia(false);
      assert leadingTrivia == ScanTrivia(text, pos, false).trivia;
      LexerProperties.ScanTriviaText(text, pos, false);
      width := FullWidth(leadingTrivia);
    }

    /** Clears the trailing cache and reads the trailing trivia. */
    method ReadTrailingTrivia()
      requires position <= |text| && diagnostics == []
      modifies this`position, this`start, this`kind, this`value, this`diagnostics,
               this`leadingTrivia, this`trailingTrivia
      ensures var trail := ScanTrivia(text, old(position), true);
        trailingTrivia == trail.trivia && position == trail.end
      ensures diagnostics == [] && leadingTrivia == old(leadingTrivia)
    {
      ghost var pos := position;
      trailingTrivia := [];
      ReadTrivia(true);
      assert trailingTrivia == ScanTrivia(text, pos, true).trivia;
    }

    /**
     * The token part of `LexNextInternal`: the token, its text (the fixed text
     * of its kind, else the characters it spans) and its diagnostics moved past
     * the leading trivia.
     */
    method ReadTokenAndDiagnostics(leadingWidth: nat)
        returns (tokenKind: SyntaxKind, tokenValue: Value, tokenText: string, ds: seq<SyntaxDiagnostic>)
      requires position <= |text| && diagnostics == []
      modifies this`position, this`start, this`kind, this`value, this`diagnostics
      ensures var ts := ScanToken(text, old(position));
        tokenKind == ts.kind && tokenValue == ts.value && position == ts.end &&
        tokenText == GetText(ts.kind).GetOr(text[old(position)..ts.end]) &&
        ds == Shift(ts.diagnostics, leadingWidth) && diagnostics == []
    {
      var tokenPosition := position;
      ghost var ts := ScanToken(text, tokenPosition);
      ReadToken();
      assert diagnostics == ts.diagnostics;
      tokenKind := kind;
      tokenValue := value;
      var tokenWidth := position - start;
      ds := GetDiagnostics(leadingWidth);
      tokenText := GetText(tokenKind).GetOr(text[tokenPosition..tokenPosition + tokenWidth]);
    }

    /**
     * The next token. Bad tokens are not handed out: each becomes skipped
     * trivia, with its own trivia around it, leading the next good token.
     */
    method LexNext() returns (token: Token)
      requires position <= |text| && diagnostics == []
      modifies this`position, this`start, this`kind, this`value, this`diagnostics,
               this`leadingTrivia, this`trailingTrivia
      ensures token == LexerSpec.LexNext(text, old(position)).token && position == LexerSpec.LexNext(text, old(position)).end
      ensures token.kind != BadToken
      ensures position <= |text| && diagnostics == []
    {
      var badTokens: seq<Token> := [];
      while true
        invariant position <= |text| && diagnostics == []
        invariant LexFrom(text, position, badTokens) == LexerSpec.LexNext(text, old(position))
        decreases |text| - position
      {
        ghost var pos := position;
        token := LexNextInternal();
        LexInternalBounds(text, pos);
        if token.kind == BadToken {
          badTokens := badTokens + [token];
        } else {
          break;
        }
      }
      if |badTokens| > 0 {
        var leading: seq<Trivia> := [];
        for i := 0 to |badTokens|
          invariant leading == SkippedTrivia(badTokens[..i])
        {
          assert badTokens[..i + 1][..i] == badTokens[..i];
          leading := leading + badTokens[i].leading + [SkippedTokens(badTokens[i])] + badTokens[i].trailing;
        }
        assert badTokens[..|badTokens|] == badTokens;
        token := token.(leading := leading + token.leading);
      }
    }
  }

  /** `LexInternal` assembled from its three scans. */
  lemma LexInternalParts(text: string, pos: nat, lead: TriviaScan, ts: TokenScan, trail: TriviaScan, width: nat)
    requires pos <= |text|
    requires lead == ScanTrivia(text, pos, false) && ts == ScanToken(text, lead.end)
    requires trail == ScanTrivia(text, ts.end, true) && width == lead.end - pos
    ensures LexInternal(text, pos) == Lexed(
      Token(ts.kind, Some(GetText(ts.kind).GetOr(text[lead.end..ts.end])), ts.value, lead.trivia, trail.trivia,
            Shift(ts.diagnostics, width)),
      trail.end)
  {
    var tokenText := GetText(ts.kind).GetOr(text[lead.end..ts.end]);
    assert LexInternal(text, pos).token.text == Some(tokenText);
  }

  /** What the string-literal loop will have read once it stops. */
  ghost function StringLoop(text: string, start: nat, pos: nat, isChar: bool,
                            chars: string, added: seq<SyntaxDiagnostic>, done: bool): StringScan
    requires start < pos <= |text|
  {
    if done then StringScan(pos, chars, added) else StringBody(text, start, pos, isChar, chars, added)
  }

  /**
   * What the trivia loop will have read in all once it stops, given the trivia
   * `read` so far, the position and whether it has already stopped.
   */
  ghost function TriviaLoop(text: string, read: seq<Trivia>, pos: nat, done: bool, trailing: bool): TriviaScan
    requires pos <= |text|
  {
    if done then TriviaScan(read, pos)
    else
      var rest := ScanTrivia(text, pos, trailing);
      TriviaScan(read + rest.trivia, rest.end)
  }

  /** No trivia starts at the end of the text, at a lone `/` or at a token's first character. */
  /** A digit run read by the class yields the literal `ScanNumber` describes. */
  lemma NumberScanned(text: string, start: nat, end: nat, st: NumberState)
    requires start < |text| && IsAsciiDigit(text[start]) && start <= end <= |text|
    requires var st0 := NumberStart(text, start);
      ScanDigits(text, if st0.isBinary || st0.isHex then start + 2 else start, st0) == NumberRun(end, st)
    ensures var nv := NumberValue(text[start..end], st);
      ScanNumber(text, start) == TokenScan(NumericLiteralToken, end, nv.0, nv.1)
  {
  }

  lemma NoTriviaPiece(text: string, pos: nat)
    requires pos <= |text|
    requires var c := Peek(text, pos);
      !(c == '/' && (Peek(text, pos + 1) == '/' || Peek(text, pos + 1) == '*')) &&
      c != '\r' && c != '\n' && !IsInlineSpace(c)
    ensures TriviaPiece(text, pos).None?
  {
  }

  lemma AppendOne<T>(a: seq<T>, b: seq<T>, x: T)
    ensures a + b + [x] == a + (b + [x])
  {
  }

  /**
   * What reading the trivia `p` found at `pos` leaves behind: nothing read
   * when there is none, otherwise its end, kind and diagnostics; `done` tells
   * whether the trivia loop stops.
   */
  ghost predicate PieceOutcome(p: Option<Piece>, pos: nat, trailing: bool,
                               end: nat, k: SyntaxKind, ds: seq<SyntaxDiagnostic>, done: bool)
  {
    match p
    case None => done && end == pos && ds == []
    case Some(piece) =>
      end == piece.end && k == piece.kind && ds == piece.diagnostics &&
      done == (trailing && piece.kind == EndOfLineTrivia)
  }

  /** One step of the trivia loop: reading the piece at `pos` keeps what the loop will have read. */
  lemma TriviaLoopStep(text: string, pos: nat, trailing: bool, read: seq<Trivia>,
                       end: nat, k: SyntaxKind, ds: seq<SyntaxDiagnostic>, done: bool)
    requires pos <= |text|
    requires PieceOutcome(TriviaPiece(text, pos), pos, trailing, end, k, ds, done)
    ensures pos <= end <= |text|
    ensures end == pos ==> (done && ds == [] &&
      TriviaLoop(text, read, pos, false, trailing) == TriviaLoop(text, read, end, done, trailing))
    ensures end > pos ==>
      TriviaLoop(text, read, pos, false, trailing) ==
        TriviaLoop(text, read + [Trivia(k, text[pos..end], ds)], end, done, trailing)
  {
    match TriviaPiece(text, pos)
    case None =>
    case Some(p) =>
      var t := Trivia(p.kind, text[pos..p.end], p.diagnostics);
      if !(trailing && p.kind == EndOfLineTrivia) {
        var rest := ScanTrivia(text, p.end, trailing);
        assert read + ([t] + rest.trivia) == read + [t] + rest.trivia;
      }
  }
}
