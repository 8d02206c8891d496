/**
 * The token buffer every parser works on (SyntaxParser.cs, non-incremental
 * mode). Tokens are pulled from the lexer on demand into an array that
 * doubles when full; `tokenOffset` is the parser's position in the buffer.
 * The parser sees its lexer as `lex`, the token at each index of the stream
 * the lexer hands out; the buffered tokens are always the first ones of it.
 */
module SyntaxParser {
  import opened Wrappers
  import opened SyntaxFacts
  import opened LexerSpec
  import LexerProperties

  // ---------------------------------------------------------------------------
  // Tokens built by the parser

  /** `SyntaxFactory.Missing(kind)`: a fabricated token without text. */
  function Missing(kind: SyntaxKind): (t: Token)
    ensures t.IsMissing() && t.kind == kind
  {
    Token(kind, None, NoValue, [], [], [])
  }

  function Width(t: Token): nat
  {
    |t.text.GetOr("")|
  }

  function LeadingWidth(t: Token): nat
  {
    |TriviaListText(t.leading)|
  }

  /** `WithAdditionalDiagnostics`: the new diagnostics follow the existing ones. */
  function WithDiagnostics(t: Token, ds: seq<SyntaxDiagnostic>): (r: Token)
    ensures r.kind == t.kind && r.text == t.text && r.leading == t.leading && r.trailing == t.trailing
    ensures |r.diagnostics| == |t.diagnostics| + |ds|
    ensures r.diagnostics[..|t.diagnostics|] == t.diagnostics && r.diagnostics[|t.diagnostics|..] == ds
    ensures ds == [] ==> r == t
  {
    t.(diagnostics := t.diagnostics + ds)
  }

  /** The pending errors, each placed over the text of the token `t`. */
  function PlacedOver(errors: seq<LexError>, t: Token): (ds: seq<SyntaxDiagnostic>)
    ensures |ds| == |errors|
    ensures forall i :: 0 <= i < |ds| ==> ds[i] == SyntaxDiagnostic(errors[i], LeadingWidth(t), Width(t))
  {
    seq(|errors|, i requires 0 <= i < |errors| => SyntaxDiagnostic(errors[i], LeadingWidth(t), Width(t)))
  }

  /**
   * The trivia a skipped token becomes: its own leading trivia, the bare token
   * (when it has any text) and its trailing trivia. The bare token's
   * diagnostics are moved to count from its own start.
   */
  function SkippedSyntaxTrivia(t: Token): seq<Trivia>
  {
    var bare := t.(leading := [], trailing := [],
                   diagnostics := if LeadingWidth(t) > 0 then Shift(t.diagnostics, 0 - LeadingWidth(t)) else t.diagnostics);
    t.leading + (if Width(t) > 0 then [SkippedTokens(bare)] else []) + t.trailing
  }

  /**
   * `AddLeadingSkippedSyntax(target, skipped)` for one skipped token: the
   * skipped token becomes leading trivia of `target`, whose own diagnostics
   * move right past it; the first diagnostic of a skipped token without text
   * is carried over to `target`.
   */
  function AddLeadingSkippedSyntax(target: Token, skipped: Token): (r: Token)
    ensures r.kind == target.kind && r.text == target.text && r.trailing == target.trailing
    ensures r.leading == SkippedSyntaxTrivia(skipped) + target.leading
  {
    var triviaWidth := |FullText(skipped)|;
    var moved := if triviaWidth > 0 then Shift(target.diagnostics, triviaWidth) else target.diagnostics;
    var t := target.(leading := SkippedSyntaxTrivia(skipped) + target.leading, diagnostics := moved);
    if Width(skipped) == 0 && |skipped.diagnostics| > 0 then WithDiagnostics(t, [skipped.diagnostics[0]])
    else t
  }

  /** Where `Reset` returns to. */
  datatype ResetPoint = ResetPoint(position: nat, prevTokenTrailingTrivia: Option<seq<Trivia>>)

  /** The number of tokens `PreLex` buffers ahead for a text of length `n`. */
  function PreLexSize(n: nat): (size: nat)
    ensures 32 <= size <= 4096
    ensures 64 <= n <= 8192 ==> size == n / 2
  {
    var half := n / 2;
    if half < 32 then 32 else if half > 4096 then 4096 else half
  }

  // ---------------------------------------------------------------------------
  // The parser's buffer

  /**
   * The four-argument `AddDiagnostic` as `Match` uses it: when `report` is
   * set, `error` is added to `node`, placed over the text of `over`.
   */
  function Reported(node: Token, report: bool, error: LexError, over: Token): (r: Token)
    ensures r.kind == node.kind && r.text == node.text && r.leading == node.leading && r.trailing == node.trailing
    ensures r.diagnostics == if report then node.diagnostics + [SyntaxDiagnostic(error, LeadingWidth(over), Width(over))]
                             else node.diagnostics
  {
    if report then WithDiagnostics(node, [SyntaxDiagnostic(error, LeadingWidth(over), Width(over))]) else node
  }

  /** None of the first `n` tokens of the stream is the end-of-file token. */
  ghost predicate NoEndOfFileBefore(lex: nat -> Token, n: int)
  {
    forall k: nat :: k < n ==> lex(k).kind != EndOfFileToken
  }

  lemma NoEndOfFileExtends(lex: nat -> Token, n: nat)
    requires NoEndOfFileBefore(lex, n) && lex(n).kind != EndOfFileToken
    ensures NoEndOfFileBefore(lex, n + 1)
  {
  }

  class SyntaxParser {
    /** The lexer, as the token it hands out at each index of its stream. */
    const lex: nat -> Token
    /** The length of the source text, which sizes the pre-lexing buffer. */
    const textLength: nat
    /** `_lexedTokens`; its length is the buffer's capacity. */
    var lexedTokens: array<Token>
    var tokenCount: nat
    var tokenOffset: nat
    /** `_currentToken`, a cache of the token at `tokenOffset`. */
    var currentToken: Option<Token>
    var prevTokenTrailingTrivia: Option<seq<Trivia>>
    /** Errors waiting for the next token that is eaten. */
    var futureDiagnostics: seq<LexError>

    ghost predicate BufferShape()
      reads this
    {
      0 < lexedTokens.Length && tokenCount <= lexedTokens.Length
    }

    ghost predicate Valid()
      reads this, lexedTokens
    {
      BufferShape() &&
      tokenOffset <= tokenCount &&
      (forall i :: 0 <= i < tokenCount ==> lexedTokens[i] == lex(i)) &&
      (currentToken.Some? ==> tokenOffset < tokenCount && currentToken.value == lex(tokenOffset))
    }

    /** The constructor over a lexer and the length of its text; the buffer starts with 32 slots. */
    constructor (lex: nat -> Token, textLength: nat)
      ensures Valid() && fresh(lexedTokens)
      ensures this.lex == lex && this.textLength == textLength
      ensures tokenCount == 0 && tokenOffset == 0 && lexedTokens.Length == 32
      ensures currentToken == None && prevTokenTrailingTrivia == None && futureDiagnostics == []
    {
      this.lex := lex;
      this.textLength := textLength;
      lexedTokens := new Token[32];
      tokenCount, tokenOffset := 0, 0;
      currentToken, prevTokenTrailingTrivia := None, None;
      futureDiagnostics := [];
    }

    /**
     * `PreLex`: a buffer of `min(4096, max(32, length / 2))` slots is filled
     * with tokens, stopping after the end-of-file token.
     */
    method PreLex()
      requires Valid() && tokenCount == 0
      modifies this`lexedTokens, this`tokenCount, lexedTokens
      ensures Valid() && (lexedTokens == old(lexedTokens) || fresh(lexedTokens))
      ensures 0 < tokenCount <= PreLexSize(textLength) == lexedTokens.Length
      ensures NoEndOfFileBefore(lex, tokenCount - 1)
      ensures tokenCount < PreLexSize(textLength) ==> lex(tokenCount - 1).kind == EndOfFileToken
    {
      var size := PreLexSize(textLength);
      lexedTokens := new Token[size];
      var i := 0;
      while i < size
        invariant Valid() && fresh(lexedTokens) && lexedTokens.Length == size
        invariant tokenCount == i <= size
        invariant NoEndOfFileBefore(lex, i)
      {
        var token := AddNewToken();
        if token.kind == EndOfFileToken {
          return;
        }
        NoEndOfFileExtends(lex, i);
        i := i + 1;
      }
    }

    /** `AddLexedToken`: a full buffer doubles, keeping its tokens; the token goes at `tokenCount`. */
    method AddLexedToken(token: Token)
      requires BufferShape()
      modifies this`lexedTokens, this`tokenCount, lexedTokens
      ensures BufferShape()
      ensures tokenCount == old(tokenCount) + 1 && lexedTokens[old(tokenCount)] == token
      ensures forall i :: 0 <= i < old(tokenCount) ==> lexedTokens[i] == old(lexedTokens[i])
      ensures lexedTokens.Length ==
        if old(tokenCount) >= old(lexedTokens.Length) then 2 * old(lexedTokens.Length) else old(lexedTokens.Length)
      ensures if old(tokenCount) >= old(lexedTokens.Length) then fresh(lexedTokens) else lexedTokens == old(lexedTokens)
    {
      if tokenCount >= lexedTokens.Length {
        var temp := new Token[lexedTokens.Length * 2];
        forall i | 0 <= i < lexedTokens.Length {
          temp[i] := lexedTokens[i];
        }
        lexedTokens := temp;
        }
      lexedTokens[tokenCount] := token;
      tokenCount := tokenCount + 1;
    }

    /** `AddNewToken`: the lexer's next token is appended to the buffer. */
    method AddNewToken() returns (token: Token)
      requires Valid()
      modifies this`lexedTokens, this`tokenCount, lexedTokens
      ensures Valid() && (lexedTokens == old(lexedTokens) || fresh(lexedTokens))
      ensures tokenCount == old(tokenCount) + 1 && token == lex(old(tokenCount))
      ensures if old(tokenCount) >= old(lexedTokens.Length) then lexedTokens.Length == 2 * old(lexedTokens.Length)
        else lexedTokens == old(lexedTokens)
    {
      token := lex(tokenCount);
      AddLexedToken(token);
    }

    /** `FetchCurrentToken`: the token at the current offset, lexed first if it is not buffered yet. */
    method FetchCurrentToken() returns (token: Token)
      requires Valid() && currentToken == None
      modifies this`lexedTokens, this`tokenCount, lexedTokens
      ensures Valid() && (lexedTokens == old(lexedTokens) || fresh(lexedTokens))
      ensures token == lex(tokenOffset) && tokenOffset < tokenCount
      ensures tokenCount == if old(tokenOffset) < old(tokenCount) then old(tokenCount) else old(tokenCount) + 1
    {
      if tokenOffset >= tokenCount {
        var _ := AddNewToken();
      }
      token := lexedTokens[tokenOffset];
    }

    /** The `currentToken` property: the cached token, fetched on first use. */
    method CurrentToken() returns (token: Token)
      requires Valid()
      modifies this`lexedTokens, this`tokenCount, this`currentToken, lexedTokens
      ensures Valid() && (lexedTokens == old(lexedTokens) || fresh(lexedTokens))
      ensures token == lex(tokenOffset) && currentToken == Some(token)
      ensures tokenCount >= old(tokenCount)
      ensures tokenOffset == old(tokenOffset) && futureDiagnostics == old(futureDiagnostics)
    {
      if currentToken == None {
        var fetched := FetchCurrentToken();
        currentToken := Some(fetched);
      } else {
      }
      token := currentToken.value;
    }

    /** `Peek(offset)`: the token `offset` places ahead, lexing until it is buffered; a negative index reads the first token. */
    method Peek(offset: int) returns (token: Token)
      requires Valid() && (tokenOffset + offset >= 0 || tokenCount > 0)
      modifies this`lexedTokens, this`tokenCount, lexedTokens
      ensures Valid() && (lexedTokens == old(lexedTokens) || fresh(lexedTokens))
      ensures token == lex(if tokenOffset + offset < 0 then 0 else tokenOffset + offset)
      ensures tokenCount >= old(tokenCount)
      ensures tokenOffset == old(tokenOffset) && futureDiagnostics == old(futureDiagnostics)
    {
      var index := tokenOffset + offset;
      while index >= tokenCount
        invariant Valid() && (lexedTokens == old(lexedTokens) || fresh(lexedTokens))
        invariant tokenCount >= old(tokenCount)
        decreases index - tokenCount
      {
        var _ := AddNewToken();
      }
      if index < 0 {
        index := 0;
      }
      token := lexedTokens[index];
    }

    /** `MoveToNextToken`: the current token's trailing trivia is remembered and the offset moves on. */
    method MoveToNextToken()
      requires Valid() && currentToken.Some?
      modifies this`prevTokenTrailingTrivia, this`currentToken, this`tokenOffset
      ensures Valid()
      ensures prevTokenTrailingTrivia == Some(old(currentToken).value.trailing)
      ensures currentToken == None && tokenOffset == old(tokenOffset) + 1
    {
      prevTokenTrailingTrivia := Some(currentToken.value.trailing);
      currentToken := None;
      tokenOffset := tokenOffset + 1;
    }

    /** `WithFutureDiagnostics`: the pending errors are attached to `node`, over its text, and cleared. */
    method WithFutureDiagnostics(node: Token) returns (r: Token)
      modifies this`futureDiagnostics
      ensures r == WithDiagnostics(node, PlacedOver(old(futureDiagnostics), node))
      ensures futureDiagnostics == []
    {
      if |futureDiagnostics| == 0 {
        assert node.diagnostics + [] == node.diagnostics;
        return node;
      }
      var ds: seq<SyntaxDiagnostic> := [];
      var i := 0;
      while i < |futureDiagnostics|
        invariant 0 <= i <= |futureDiagnostics|
        invariant ds == PlacedOver(futureDiagnostics[..i], node)
      {
        ds := ds + [SyntaxDiagnostic(futureDiagnostics[i], LeadingWidth(node), Width(node))];
        i := i + 1;
      }
      assert futureDiagnostics[..i] == futureDiagnostics;
      futureDiagnostics := [];
      r := WithDiagnostics(node, ds);
    }

    /** `AddDiagnosticToNextToken`: the error waits for the next eaten token. */
    method AddDiagnosticToNextToken(error: LexError)
      modifies this`futureDiagnostics
      ensures futureDiagnostics == old(futureDiagnostics) + [error]
    {
      futureDiagnostics := futureDiagnostics + [error];
    }

    /** `EatToken`: the current token, with the pending errors unless they are stalled, and the offset moves on. */
    method EatToken(stallDiagnostics: bool) returns (token: Token)
      requires Valid()
      modifies this, lexedTokens
      ensures Valid() && (lexedTokens == old(lexedTokens) || fresh(lexedTokens))
      ensures var t := lex(old(tokenOffset));
        if stallDiagnostics then token == t && futureDiagnostics == old(futureDiagnostics)
        else token == WithDiagnostics(t, PlacedOver(old(futureDiagnostics), t)) && futureDiagnostics == []
      ensures tokenOffset == old(tokenOffset) + 1 && currentToken == None
      ensures prevTokenTrailingTrivia == Some(lex(old(tokenOffset)).trailing)
    {
      var saved := CurrentToken();
      token := saved;
      if !stallDiagnostics {
        token := WithFutureDiagnostics(saved);
      }
      MoveToNextToken();
    }

    /** `GetResetPoint`. */
    function GetResetPoint(): (p: ResetPoint)
      reads this
      ensures p.position == tokenOffset && p.prevTokenTrailingTrivia == prevTokenTrailingTrivia
    {
      ResetPoint(tokenOffset, prevTokenTrailingTrivia)
    }

    /** `Reset`: back to a point taken earlier; the cached current token is dropped. */
    method Reset(point: ResetPoint)
      requires Valid() && point.position <= tokenCount
      modifies this`tokenOffset, this`prevTokenTrailingTrivia, this`currentToken
      ensures Valid()
      ensures tokenOffset == point.position && prevTokenTrailingTrivia == point.prevTokenTrailingTrivia
      ensures currentToken == None
    {
      tokenOffset := point.position;
      prevTokenTrailingTrivia := point.prevTokenTrailingTrivia;
      currentToken := None;
    }

    /** `IsMakingProgress`: true exactly when the offset moved past `lastTokenPosition`, which then records it. */
    method IsMakingProgress(lastTokenPosition: int) returns (progress: bool, newLast: int)
      ensures progress <==> tokenOffset > lastTokenPosition
      ensures newLast == if progress then tokenOffset else lastTokenPosition
    {
      if tokenOffset > lastTokenPosition {
        return true, tokenOffset;
      }
      return false, lastTokenPosition;
    }

    /**
     * `Match(kind, nextWanted, report)`: the current token when it has the
     * wanted kind. Otherwise a missing token of that kind, without consuming
     * anything if the current token is `nextWanted`, else after skipping the
     * current token, unless the token after it has the wanted kind: then
     * that one is consumed with the skipped token as its leading trivia.
     */
    method Match(kind: SyntaxKind, nextWanted: Option<SyntaxKind>, report: bool) returns (token: Token)
      requires Valid()
      modifies this, lexedTokens
      ensures Valid() && (lexedTokens == old(lexedTokens) || fresh(lexedTokens))
      ensures var r := MatchResult(lex(old(tokenOffset)), lex(old(tokenOffset) + 1),
                                   old(futureDiagnostics), kind, nextWanted, report);
        token == r.token && tokenOffset == old(tokenOffset) + r.consumed && futureDiagnostics == r.future
    {
      ghost var r := MatchResult(lex(tokenOffset), lex(tokenOffset + 1), futureDiagnostics, kind, nextWanted, report);
      ghost var offset := tokenOffset;
      var current := CurrentToken();
      if current.kind == kind {
        token := EatToken(false);
      } else if nextWanted == Some(current.kind) {
        token := MissingBeforeToken(kind, report, current);
      } else {
        token := SkipToMatch(kind, report);
      }
      assert token == r.token && tokenOffset == offset + r.consumed && futureDiagnostics == r.future;
    }

    /** The `Match` path that leaves the current token for the caller: a missing token takes the pending errors. */
    method MissingBeforeToken(kind: SyntaxKind, report: bool, current: Token) returns (token: Token)
      modifies this`futureDiagnostics
      ensures token == MissingBefore(current, old(futureDiagnostics), kind, report).token && futureDiagnostics == []
    {
      var missing := WithFutureDiagnostics(Missing(kind));
      token := Reported(missing, report, ExpectedToken(kind), current);
    }

    /** The `Match` paths that skip the current token: the next one decides how. */
    method SkipToMatch(kind: SyntaxKind, report: bool) returns (token: Token)
      requires Valid()
      modifies this, lexedTokens
      ensures Valid() && (lexedTokens == old(lexedTokens) || fresh(lexedTokens))
      ensures var t0, t1 := lex(old(tokenOffset)), lex(old(tokenOffset) + 1);
        if t1.kind != kind then token == SkipOne(t0, old(futureDiagnostics), kind, report).token && tokenOffset == old(tokenOffset) + 1
        else token == SkipThenMatch(t0, t1, old(futureDiagnostics), report).token && tokenOffset == old(tokenOffset) + 2
      ensures futureDiagnostics == []
    {
      var next := Peek(1);
      if next.kind != kind {
        token := SkipOneToken(kind, report);
      } else {
        token := SkipThenMatchToken(report);
      }
    }

    /** The `Match` path that eats the current token into a missing one. */
    method SkipOneToken(kind: SyntaxKind, report: bool) returns (token: Token)
      requires Valid()
      modifies this, lexedTokens
      ensures Valid() && (lexedTokens == old(lexedTokens) || fresh(lexedTokens))
      ensures var r := SkipOne(lex(old(tokenOffset)), old(futureDiagnostics), kind, report);
        token == r.token && tokenOffset == old(tokenOffset) + r.consumed && futureDiagnostics == r.future
    {
      var unexpectedToken := EatToken(false);
      token := Reported(AddLeadingSkippedSyntax(Missing(kind), unexpectedToken), report,
                        UnexpectedToken(unexpectedToken.kind, Some(kind)), unexpectedToken);
    }

    /** The `Match` path that skips the current token and eats the next one. */
    method SkipThenMatchToken(report: bool) returns (token: Token)
      requires Valid()
      modifies this, lexedTokens
      ensures Valid() && (lexedTokens == old(lexedTokens) || fresh(lexedTokens))
      ensures var r := SkipThenMatch(lex(old(tokenOffset)), lex(old(tokenOffset) + 1), old(futureDiagnostics), report);
        token == r.token && tokenOffset == old(tokenOffset) + r.consumed && futureDiagnostics == r.future
    {
      var unexpected := EatToken(true);
      var matched := EatToken(false);
      var withFuture := WithFutureDiagnostics(AddLeadingSkippedSyntax(matched, unexpected));
      token := Reported(withFuture, report, UnexpectedToken(unexpected.kind, None), unexpected);
    }
  }

  // ---------------------------------------------------------------------------
  // What `Match` yields

  datatype MatchOutcome = MatchOutcome(token: Token, consumed: nat, future: seq<LexError>)

  /**
   * The token `Match` returns, how many tokens it consumes and the errors
   * left pending, given the current token `t0`, the one after it `t1` and
   * the pending errors.
   */
  function MatchResult(t0: Token, t1: Token, future: seq<LexError>, kind: SyntaxKind,
                       nextWanted: Option<SyntaxKind>, report: bool): (r: MatchOutcome)
    ensures r.token.kind == kind
  {
    if t0.kind == kind then MatchOutcome(WithDiagnostics(t0, PlacedOver(future, t0)), 1, [])
    else if nextWanted == Some(t0.kind) then MissingBefore(t0, future, kind, report)
    else if t1.kind != kind then SkipOne(t0, future, kind, report)
    else SkipThenMatch(t0, t1, future, report)
  }

  /** The current token is what the caller wants next: a missing token, nothing consumed. */
  function MissingBefore(t0: Token, future: seq<LexError>, kind: SyntaxKind, report: bool): (r: MatchOutcome)
    ensures r.token.kind == kind
    ensures r.consumed == 0 && r.future == []
  {
    var m := WithDiagnostics(Missing(kind), PlacedOver(future, Missing(kind)));
    MatchOutcome(Reported(m, report, ExpectedToken(kind), t0), 0, [])
  }

  /** Neither token fits: the current one is eaten and becomes skipped trivia of a missing token. */
  function SkipOne(t0: Token, future: seq<LexError>, kind: SyntaxKind, report: bool): (r: MatchOutcome)
    ensures r.token.kind == kind
    ensures r.consumed == 1 && r.future == []
  {
    var eaten := WithDiagnostics(t0, PlacedOver(future, t0));
    var m := AddLeadingSkippedSyntax(Missing(kind), eaten);
    MatchOutcome(Reported(m, report, UnexpectedToken(t0.kind, Some(kind)), eaten), 1, [])
  }

  /** The next token fits: the current one becomes skipped trivia of it, and both are consumed. */
  function SkipThenMatch(t0: Token, t1: Token, future: seq<LexError>, report: bool): (r: MatchOutcome)
    ensures r.token.kind == t1.kind
    ensures r.consumed == 2 && r.future == []
  {
    var m := AddLeadingSkippedSyntax(WithDiagnostics(t1, PlacedOver(future, t1)), t0);
    MatchOutcome(Reported(m, report, UnexpectedToken(t0.kind, None), t0), 2, [])
  }

  /** A current token of the wanted kind is consumed, exactly one, and returned as it is apart from the pending errors. */
  lemma MatchExpected(t0: Token, t1: Token, future: seq<LexError>, kind: SyntaxKind, nextWanted: Option<SyntaxKind>, report: bool)
    requires t0.kind == kind
    ensures var r := MatchResult(t0, t1, future, kind, nextWanted, report);
      r.consumed == 1 && r.token.text == t0.text && r.token.leading == t0.leading && r.token.trailing == t0.trailing
      && r.future == []
  {
  }

  /** When the current token is the one wanted next, a missing token is returned and nothing is consumed. */
  lemma MatchNextWanted(t0: Token, t1: Token, future: seq<LexError>, kind: SyntaxKind, report: bool)
    requires t0.kind != kind
    ensures var r := MatchResult(t0, t1, future, kind, Some(t0.kind), report);
      r.consumed == 0 && r.token.IsMissing() && r.token.leading == [] &&
      (report ==> r.token.diagnostics[|r.token.diagnostics| - 1].error == ExpectedToken(kind))
  {
  }

  /** When neither the current token nor the next has the wanted kind, the current one is skipped into a missing token's leading trivia. */
  lemma MatchSkipsOne(t0: Token, t1: Token, future: seq<LexError>, kind: SyntaxKind, nextWanted: Option<SyntaxKind>, report: bool)
    requires t0.kind != kind && nextWanted != Some(t0.kind) && t1.kind != kind
    ensures var r := MatchResult(t0, t1, future, kind, nextWanted, report);
      r.consumed == 1 && r.token.IsMissing() &&
      r.token.leading == SkippedSyntaxTrivia(WithDiagnostics(t0, PlacedOver(future, t0))) &&
      (report ==> r.token.diagnostics[|r.token.diagnostics| - 1].error == UnexpectedToken(t0.kind, Some(kind)))
  {
  }

  /** When the next token has the wanted kind, the current one is skipped and the next one consumed. */
  lemma MatchSkipsThenConsumes(t0: Token, t1: Token, future: seq<LexError>, kind: SyntaxKind, nextWanted: Option<SyntaxKind>, report: bool)
    requires t0.kind != kind && nextWanted != Some(t0.kind) && t1.kind == kind
    ensures var r := MatchResult(t0, t1, future, kind, nextWanted, report);
      r.consumed == 2 && r.token.text == t1.text && r.token.trailing == t1.trailing &&
      r.token.leading == SkippedSyntaxTrivia(t0) + t1.leading
  {
  }

  /** The returned token is missing exactly when nothing of the wanted kind was consumed. */
  lemma MatchMissingIff(t0: Token, t1: Token, future: seq<LexError>, kind: SyntaxKind, nextWanted: Option<SyntaxKind>, report: bool)
    requires t0.text.Some? && t1.text.Some?
    ensures var r := MatchResult(t0, t1, future, kind, nextWanted, report);
      r.token.IsMissing() <==> !(t0.kind == kind || (nextWanted != Some(t0.kind) && t1.kind == kind))
  {
  }

  // ---------------------------------------------------------------------------
  // Skipping loses no text

  /** A skipped token, as trivia, spells out its full text. */
  lemma SkippedKeepsText(t: Token)
    ensures TriviaListText(SkippedSyntaxTrivia(t)) == FullText(t)
  {
    var bare := t.(leading := [], trailing := [],
                   diagnostics := if LeadingWidth(t) > 0 then Shift(t.diagnostics, 0 - LeadingWidth(t)) else t.diagnostics);
    var middle: seq<Trivia> := if Width(t) > 0 then [SkippedTokens(bare)] else [];
    LexerProperties.TriviaListTextAppend(t.leading + middle, t.trailing);
    LexerProperties.TriviaListTextAppend(t.leading, middle);
    if Width(t) > 0 {
      assert TriviaListText(middle) == t.text.GetOr("");
    } else {
      assert TriviaListText(middle) == "" == t.text.GetOr("");
    }
  }

  /** A token with another token skipped before it spells out the skipped token's full text, then its own. */
  lemma AddLeadingSkippedKeepsText(target: Token, skipped: Token)
    ensures FullText(AddLeadingSkippedSyntax(target, skipped)) == FullText(skipped) + FullText(target)
  {
    SkippedKeepsText(skipped);
    LexerProperties.TriviaListTextAppend(SkippedSyntaxTrivia(skipped), target.leading);
  }

  /** `Match` loses no text: what it returns spells out exactly the tokens it consumed. */
  lemma MatchKeepsText(t0: Token, t1: Token, future: seq<LexError>, kind: SyntaxKind, nextWanted: Option<SyntaxKind>, report: bool)
    ensures var r := MatchResult(t0, t1, future, kind, nextWanted, report);
      FullText(r.token) == if r.consumed == 0 then "" else if r.consumed == 1 then FullText(t0) else FullText(t0) + FullText(t1)
  {
    var r := MatchResult(t0, t1, future, kind, nextWanted, report);
    if t0.kind == kind {
      SameText(r.token, t0);
    } else if nextWanted == Some(t0.kind) {
      SameText(r.token, Missing(kind));
    } else if t1.kind != kind {
      var eaten := WithDiagnostics(t0, PlacedOver(future, t0));
      var m := AddLeadingSkippedSyntax(Missing(kind), eaten);
      AddLeadingSkippedKeepsText(Missing(kind), eaten);
      SameText(eaten, t0);
      SameText(r.token, m);
    } else {
      var matched := WithDiagnostics(t1, PlacedOver(future, t1));
      var m := AddLeadingSkippedSyntax(matched, t0);
      AddLeadingSkippedKeepsText(matched, t0);
      SameText(matched, t1);
      SameText(r.token, m);
    }
  }

  lemma SameText(a: Token, b: Token)
    requires a.leading == b.leading && a.text == b.text && a.trailing == b.trailing
    ensures FullText(a) == FullText(b)
  {
  }
}
