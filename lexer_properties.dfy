/**
 * Properties of lexing, proved about the functions of `LexerSpec`: lexing
 * loses no text, never hands out a bad token, takes the longest operator,
 * backs `>>` off to `>`, and gives literals the values and diagnostics the
 * lexer promises.
 */
module LexerProperties {
  import opened Wrappers
  import opened Strings
  import opened SyntaxFacts
  import opened LexerSpec

  // ---------------------------------------------------------------------------
  // Lexing loses no text

  lemma {:induction false} TriviaListTextAppend(a: seq<Trivia>, b: seq<Trivia>)
    ensures TriviaListText(a + b) == TriviaListText(a) + TriviaListText(b)
    decreases |a|
  {
    if a == [] {
      assert a + b == b;
    } else {
      assert (a + b)[1..] == a[1..] + b;
      TriviaListTextAppend(a[1..], b);
    }
  }

  lemma SliceJoin(text: string, i: nat, j: nat, k: nat)
    requires i <= j <= k <= |text|
    ensures text[i..j] + text[j..k] == text[i..k]
  {
  }

  /** The trivia read from `pos` spell out exactly the text they cover. */
  lemma {:induction false} ScanTriviaText(text: string, pos: nat, trailing: bool)
    requires pos <= |text|
    ensures TriviaListText(ScanTrivia(text, pos, trailing).trivia) == text[pos..ScanTrivia(text, pos, trailing).end]
    decreases |text| - pos
  {
    match TriviaPiece(text, pos)
    case None =>
    case Some(p) =>
      var t := Trivia(p.kind, text[pos..p.end], p.diagnostics);
      if trailing && p.kind == EndOfLineTrivia {
        assert TriviaListText([t]) == TriviaText(t) + TriviaListText([]);
      } else {
        var rest := ScanTrivia(text, p.end, trailing);
        ScanTriviaText(text, p.end, trailing);
        TriviaListTextAppend([t], rest.trivia);
        assert TriviaListText([t]) == TriviaText(t) + TriviaListText([]);
        SliceJoin(text, pos, p.end, rest.end);
      }
  }

  /** The text of `s` sits at `pos`. */
  lemma SliceSpells(text: string, pos: nat, s: string)
    requires pos + |s| <= |text|
    requires forall i :: 0 <= i < |s| ==> text[pos + i] == s[i]
    ensures text[pos..pos + |s|] == s
  {
  }

  /** The text between `pos` and `e`, character by character. */
  lemma ShortSlice(text: string, pos: nat, e: nat)
    requires pos < e <= |text| && e <= pos + 4
    ensures e == pos + 1 ==> text[pos..e] == [text[pos]]
    ensures e == pos + 2 ==> text[pos..e] == [text[pos], text[pos + 1]]
    ensures e == pos + 3 ==> text[pos..e] == [text[pos], text[pos + 1], text[pos + 2]]
    ensures e == pos + 4 ==> text[pos..e] == [text[pos], text[pos + 1], text[pos + 2], text[pos + 3]]
  {
  }

  lemma PeriodText(text: string, pos: nat)
    requires pos < |text| && text[pos] == '.'
    ensures PunctuationText(ScanOperator(text, pos).0) == Some(text[pos..ScanOperator(text, pos).1])
  {
    ShortSlice(text, pos, ScanOperator(text, pos).1);
  }

  lemma CommaText(text: string, pos: nat)
    requires pos < |text| && text[pos] == ','
    ensures PunctuationText(ScanOperator(text, pos).0) == Some(text[pos..ScanOperator(text, pos).1])
  {
    ShortSlice(text, pos, ScanOperator(text, pos).1);
  }

  lemma OpenParenText(text: string, pos: nat)
    requires pos < |text| && text[pos] == '('
    ensures PunctuationText(ScanOperator(text, pos).0) == Some(text[pos..ScanOperator(text, pos).1])
  {
    ShortSlice(text, pos, ScanOperator(text, pos).1);
  }

  lemma CloseParenText(text: string, pos: nat)
    requires pos < |text| && text[pos] == ')'
    ensures PunctuationText(ScanOperator(text, pos).0) == Some(text[pos..ScanOperator(text, pos).1])
  {
    ShortSlice(text, pos, ScanOperator(text, pos).1);
  }

  lemma OpenBraceText(text: string, pos: nat)
    requires pos < |text| && text[pos] == '{'
    ensures PunctuationText(ScanOperator(text, pos).0) == Some(text[pos..ScanOperator(text, pos).1])
  {
    ShortSlice(text, pos, ScanOperator(text, pos).1);
  }

  lemma CloseBraceText(text: string, pos: nat)
    requires pos < |text| && text[pos] == '}'
    ensures PunctuationText(ScanOperator(text, pos).0) == Some(text[pos..ScanOperator(text, pos).1])
  {
    ShortSlice(text, pos, ScanOperator(text, pos).1);
  }

  lemma OpenBracketText(text: string, pos: nat)
    requires pos < |text| && text[pos] == '['
    ensures PunctuationText(ScanOperator(text, pos).0) == Some(text[pos..ScanOperator(text, pos).1])
  {
    ShortSlice(text, pos, ScanOperator(text, pos).1);
  }

  lemma CloseBracketText(text: string, pos: nat)
    requires pos < |text| && text[pos] == ']'
    ensures PunctuationText(ScanOperator(text, pos).0) == Some(text[pos..ScanOperator(text, pos).1])
  {
    ShortSlice(text, pos, ScanOperator(text, pos).1);
  }

  lemma SemicolonText(text: string, pos: nat)
    requires pos < |text| && text[pos] == ';'
    ensures PunctuationText(ScanOperator(text, pos).0) == Some(text[pos..ScanOperator(text, pos).1])
  {
    ShortSlice(text, pos, ScanOperator(text, pos).1);
  }

  lemma ColonText(text: string, pos: nat)
    requires pos < |text| && text[pos] == ':'
    ensures PunctuationText(ScanOperator(text, pos).0) == Some(text[pos..ScanOperator(text, pos).1])
  {
    ShortSlice(text, pos, ScanOperator(text, pos).1);
  }

  lemma TildeText(text: string, pos: nat)
    requires pos < |text| && text[pos] == '~'
    ensures PunctuationText(ScanOperator(text, pos).0) == Some(text[pos..ScanOperator(text, pos).1])
  {
    ShortSlice(text, pos, ScanOperator(text, pos).1);
  }

  lemma PercentEqualsText(text: string, pos: nat)
    requires pos < |text| && text[pos] == '%' && ScanOperator(text, pos).0 == PercentEqualsToken
    ensures PunctuationText(PercentEqualsToken) == Some(text[pos..ScanOperator(text, pos).1])
  {
    ShortSlice(text, pos, ScanOperator(text, pos).1);
  }

  lemma PercentText(text: string, pos: nat)
    requires pos < |text| && text[pos] == '%' && ScanOperator(text, pos).0 == PercentToken
    ensures PunctuationText(PercentToken) == Some(text[pos..ScanOperator(text, pos).1])
  {
    ShortSlice(text, pos, ScanOperator(text, pos).1);
  }

  lemma PercentCharText(text: string, pos: nat)
    requires pos < |text| && text[pos] == '%'
    ensures PunctuationText(ScanOperator(text, pos).0) == Some(text[pos..ScanOperator(text, pos).1])
  {
    var k := ScanOperator(text, pos).0;
    if k == PercentEqualsToken {
      PercentEqualsText(text, pos);
    } else {
      PercentText(text, pos);
    }
  }

  lemma CaretEqualsText(text: string, pos: nat)
    requires pos < |text| && text[pos] == '^' && ScanOperator(text, pos).0 == CaretEqualsToken
    ensures PunctuationText(CaretEqualsToken) == Some(text[pos..ScanOperator(text, pos).1])
  {
    ShortSlice(text, pos, ScanOperator(text, pos).1);
  }

  lemma CaretText(text: string, pos: nat)
    requires pos < |text| && text[pos] == '^' && ScanOperator(text, pos).0 == CaretToken
    ensures PunctuationText(CaretToken) == Some(text[pos..ScanOperator(text, pos).1])
  {
    ShortSlice(text, pos, ScanOperator(text, pos).1);
  }

  lemma CaretCharText(text: string, pos: nat)
    requires pos < |text| && text[pos] == '^'
    ensures PunctuationText(ScanOperator(text, pos).0) == Some(text[pos..ScanOperator(text, pos).1])
  {
    var k := ScanOperator(text, pos).0;
    if k == CaretEqualsToken {
      CaretEqualsText(text, pos);
    } else {
      CaretText(text, pos);
    }
  }

  lemma QuestionQuestionEqualsText(text: string, pos: nat)
    requires pos < |text| && text[pos] == '?' && ScanOperator(text, pos).0 == QuestionQuestionEqualsToken
    ensures PunctuationText(QuestionQuestionEqualsToken) == Some(text[pos..ScanOperator(text, pos).1])
  {
    ShortSlice(text, pos, ScanOperator(text, pos).1);
  }

  lemma QuestionQuestionText(text: string, pos: nat)
    requires pos < |text| && text[pos] == '?' && ScanOperator(text, pos).0 == QuestionQuestionToken
    ensures PunctuationText(QuestionQuestionToken) == Some(text[pos..ScanOperator(text, pos).1])
  {
    ShortSlice(text, pos, ScanOperator(text, pos).1);
  }

  lemma QuestionPeriodText(text: string, pos: nat)
    requires pos < |text| && text[pos] == '?' && ScanOperator(text, pos).0 == QuestionPeriodToken
    ensures PunctuationText(QuestionPeriodToken) == Some(text[pos..ScanOperator(text, pos).1])
  {
    ShortSlice(text, pos, ScanOperator(text, pos).1);
  }

  lemma QuestionOpenBracketText(text: string, pos: nat)
    requires pos < |text| && text[pos] == '?' && ScanOperator(text, pos).0 == QuestionOpenBracketToken
    ensures PunctuationText(QuestionOpenBracketToken) == Some(text[pos..ScanOperator(text, pos).1])
  {
    ShortSlice(text, pos, ScanOperator(text, pos).1);
  }

  lemma QuestionText(text: string, pos: nat)
    requires pos < |text| && text[pos] == '?' && ScanOperator(text, pos).0 == QuestionToken
    ensures PunctuationText(QuestionToken) == Some(text[pos..ScanOperator(text, pos).1])
  {
    ShortSlice(text, pos, ScanOperator(text, pos).1);
  }

  lemma QuestionCharText(text: string, pos: nat)
    requires pos < |text| && text[pos] == '?'
    ensures PunctuationText(ScanOperator(text, pos).0) == Some(text[pos..ScanOperator(text, pos).1])
  {
    var k := ScanOperator(text, pos).0;
    if k == QuestionQuestionEqualsToken {
      QuestionQuestionEqualsText(text, pos);
    } else if k == QuestionQuestionToken {
      QuestionQuestionText(text, pos);
    } else if k == QuestionPeriodToken {
      QuestionPeriodText(text, pos);
    } else if k == QuestionOpenBracketToken {
      QuestionOpenBracketText(text, pos);
    } else {
      QuestionText(text, pos);
    }
  }

  lemma PlusEqualsText(text: string, pos: nat)
    requires pos < |text| && text[pos] == '+' && ScanOperator(text, pos).0 == PlusEqualsToken
    ensures PunctuationText(PlusEqualsToken) == Some(text[pos..ScanOperator(text, pos).1])
  {
    ShortSlice(text, pos, ScanOperator(text, pos).1);
  }

  lemma PlusPlusText(text: string, pos: nat)
    requires pos < |text| && text[pos] == '+' && ScanOperator(text, pos).0 == PlusPlusToken
    ensures PunctuationText(PlusPlusToken) == Some(text[pos..ScanOperator(text, pos).1])
  {
    ShortSlice(text, pos, ScanOperator(text, pos).1);
  }

  lemma PlusText(text: string, pos: nat)
    requires pos < |text| && text[pos] == '+' && ScanOperator(text, pos).0 == PlusToken
    ensures PunctuationText(PlusToken) == Some(text[pos..ScanOperator(text, pos).1])
  {
    ShortSlice(text, pos, ScanOperator(text, pos).1);
  }

  lemma PlusCharText(text: string, pos: nat)
    requires pos < |text| && text[pos] == '+'
    ensures PunctuationText(ScanOperator(text, pos).0) == Some(text[pos..ScanOperator(text, pos).1])
  {
    var k := ScanOperator(text, pos).0;
    if k == PlusEqualsToken {
      PlusEqualsText(text, pos);
    } else if k == PlusPlusToken {
      PlusPlusText(text, pos);
    } else {
      PlusText(text, pos);
    }
  }

  lemma MinusEqualsText(text: string, pos: nat)
    requires pos < |text| && text[pos] == '-' && ScanOperator(text, pos).0 == MinusEqualsToken
    ensures PunctuationText(MinusEqualsToken) == Some(text[pos..ScanOperator(text, pos).1])
  {
    ShortSlice(text, pos, ScanOperator(text, pos).1);
  }

  lemma MinusMinusText(text: string, pos: nat)
    requires pos < |text| && text[pos] == '-' && ScanOperator(text, pos).0 == MinusMinusToken
    ensures PunctuationText(MinusMinusToken) == Some(text[pos..ScanOperator(text, pos).1])
  {
    ShortSlice(text, pos, ScanOperator(text, pos).1);
  }

  lemma MinusText(text: string, pos: nat)
    requires pos < |text| && text[pos] == '-' && ScanOperator(text, pos).0 == MinusToken
    ensures PunctuationText(MinusToken) == Some(text[pos..ScanOperator(text, pos).1])
  {
    ShortSlice(text, pos, ScanOperator(text, pos).1);
  }

  lemma MinusCharText(text: string, pos: nat)
    requires pos < |text| && text[pos] == '-'
    ensures PunctuationText(ScanOperator(text, pos).0) == Some(text[pos..ScanOperator(text, pos).1])
  {
    var k := ScanOperator(text, pos).0;
    if k == MinusEqualsToken {
      MinusEqualsText(text, pos);
    } else if k == MinusMinusToken {
      MinusMinusText(text, pos);
    } else {
      MinusText(text, pos);
    }
  }

  lemma SlashEqualsText(text: string, pos: nat)
    requires pos < |text| && text[pos] == '/' && ScanOperator(text, pos).0 == SlashEqualsToken
    ensures PunctuationText(SlashEqualsToken) == Some(text[pos..ScanOperator(text, pos).1])
  {
    ShortSlice(text, pos, ScanOperator(text, pos).1);
  }

  lemma SlashText(text: string, pos: nat)
    requires pos < |text| && text[pos] == '/' && ScanOperator(text, pos).0 == SlashToken
    ensures PunctuationText(SlashToken) == Some(text[pos..ScanOperator(text, pos).1])
  {
    ShortSlice(text, pos, ScanOperator(text, pos).1);
  }

  lemma SlashCharText(text: string, pos: nat)
    requires pos < |text| && text[pos] == '/'
    ensures PunctuationText(ScanOperator(text, pos).0) == Some(text[pos..ScanOperator(text, pos).1])
  {
    var k := ScanOperator(text, pos).0;
    if k == SlashEqualsToken {
      SlashEqualsText(text, pos);
    } else {
      SlashText(text, pos);
    }
  }

  lemma AsteriskAsteriskEqualsText(text: string, pos: nat)
    requires pos < |text| && text[pos] == '*' && ScanOperator(text, pos).0 == AsteriskAsteriskEqualsToken
    ensures PunctuationText(AsteriskAsteriskEqualsToken) == Some(text[pos..ScanOperator(text, pos).1])
  {
    ShortSlice(text, pos, ScanOperator(text, pos).1);
  }

  lemma AsteriskAsteriskText(text: string, pos: nat)
    requires pos < |text| && text[pos] == '*' && ScanOperator(text, pos).0 == AsteriskAsteriskToken
    ensures PunctuationText(AsteriskAsteriskToken) == Some(text[pos..ScanOperator(text, pos).1])
  {
    ShortSlice(text, pos, ScanOperator(text, pos).1);
  }

  lemma AsteriskEqualsText(text: string, pos: nat)
    requires pos < |text| && text[pos] == '*' && ScanOperator(text, pos).0 == AsteriskEqualsToken
    ensures PunctuationText(AsteriskEqualsToken) == Some(text[pos..ScanOperator(text, pos).1])
  {
    ShortSlice(text, pos, ScanOperator(text, pos).1);
  }

  lemma AsteriskText(text: string, pos: nat)
    requires pos < |text| && text[pos] == '*' && ScanOperator(text, pos).0 == AsteriskToken
    ensures PunctuationText(AsteriskToken) == Some(text[pos..ScanOperator(text, pos).1])
  {
    ShortSlice(text, pos, ScanOperator(text, pos).1);
  }

  lemma AsteriskCharText(text: string, pos: nat)
    requires pos < |text| && text[pos] == '*'
    ensures PunctuationText(ScanOperator(text, pos).0) == Some(text[pos..ScanOperator(text, pos).1])
  {
    var k := ScanOperator(text, pos).0;
    if k == AsteriskAsteriskEqualsToken {
      AsteriskAsteriskEqualsText(text, pos);
    } else if k == AsteriskAsteriskToken {
      AsteriskAsteriskText(text, pos);
    } else if k == AsteriskEqualsToken {
      AsteriskEqualsText(text, pos);
    } else {
      AsteriskText(text, pos);
    }
  }

  lemma AmpersandAmpersandText(text: string, pos: nat)
    requires pos < |text| && text[pos] == '&' && ScanOperator(text, pos).0 == AmpersandAmpersandToken
    ensures PunctuationText(AmpersandAmpersandToken) == Some(text[pos..ScanOperator(text, pos).1])
  {
    ShortSlice(text, pos, ScanOperator(text, pos).1);
  }

  lemma AmpersandEqualsText(text: string, pos: nat)
    requires pos < |text| && text[pos] == '&' && ScanOperator(text, pos).0 == AmpersandEqualsToken
    ensures PunctuationText(AmpersandEqualsToken) == Some(text[pos..ScanOperator(text, pos).1])
  {
    ShortSlice(text, pos, ScanOperator(text, pos).1);
  }

  lemma AmpersandText(text: string, pos: nat)
    requires pos < |text| && text[pos] == '&' && ScanOperator(text, pos).0 == AmpersandToken
    ensures PunctuationText(AmpersandToken) == Some(text[pos..ScanOperator(text, pos).1])
  {
    ShortSlice(text, pos, ScanOperator(text, pos).1);
  }

  lemma AmpersandCharText(text: string, pos: nat)
    requires pos < |text| && text[pos] == '&'
    ensures PunctuationText(ScanOperator(text, pos).0) == Some(text[pos..ScanOperator(text, pos).1])
  {
    var k := ScanOperator(text, pos).0;
    if k == AmpersandAmpersandToken {
      AmpersandAmpersandText(text, pos);
    } else if k == AmpersandEqualsToken {
      AmpersandEqualsText(text, pos);
    } else {
      AmpersandText(text, pos);
    }
  }

  lemma PipePipeText(text: string, pos: nat)
    requires pos < |text| && text[pos] == '|' && ScanOperator(text, pos).0 == PipePipeToken
    ensures PunctuationText(PipePipeToken) == Some(text[pos..ScanOperator(text, pos).1])
  {
    ShortSlice(text, pos, ScanOperator(text, pos).1);
  }

  lemma PipeEqualsText(text: string, pos: nat)
    requires pos < |text| && text[pos] == '|' && ScanOperator(text, pos).0 == PipeEqualsToken
    ensures PunctuationText(PipeEqualsToken) == Some(text[pos..ScanOperator(text, pos).1])
  {
    ShortSlice(text, pos, ScanOperator(text, pos).1);
  }

  lemma PipeText(text: string, pos: nat)
    requires pos < |text| && text[pos] == '|' && ScanOperator(text, pos).0 == PipeToken
    ensures PunctuationText(PipeToken) == Some(text[pos..ScanOperator(text, pos).1])
  {
    ShortSlice(text, pos, ScanOperator(text, pos).1);
  }

  lemma PipeCharText(text: string, pos: nat)
    requires pos < |text| && text[pos] == '|'
    ensures PunctuationText(ScanOperator(text, pos).0) == Some(text[pos..ScanOperator(text, pos).1])
  {
    var k := ScanOperator(text, pos).0;
    if k == PipePipeToken {
      PipePipeText(text, pos);
    } else if k == PipeEqualsToken {
      PipeEqualsText(text, pos);
    } else {
      PipeText(text, pos);
    }
  }

  lemma EqualsEqualsText(text: string, pos: nat)
    requires pos < |text| && text[pos] == '=' && ScanOperator(text, pos).0 == EqualsEqualsToken
    ensures PunctuationText(EqualsEqualsToken) == Some(text[pos..ScanOperator(text, pos).1])
  {
    ShortSlice(text, pos, ScanOperator(text, pos).1);
  }

  lemma EqualsText(text: string, pos: nat)
    requires pos < |text| && text[pos] == '=' && ScanOperator(text, pos).0 == EqualsToken
    ensures PunctuationText(EqualsToken) == Some(text[pos..ScanOperator(text, pos).1])
  {
    ShortSlice(text, pos, ScanOperator(text, pos).1);
  }

  lemma EqualsCharText(text: string, pos: nat)
    requires pos < |text| && text[pos] == '='
    ensures PunctuationText(ScanOperator(text, pos).0) == Some(text[pos..ScanOperator(text, pos).1])
  {
    var k := ScanOperator(text, pos).0;
    if k == EqualsEqualsToken {
      EqualsEqualsText(text, pos);
    } else {
      EqualsText(text, pos);
    }
  }

  lemma ExclamationEqualsText(text: string, pos: nat)
    requires pos < |text| && text[pos] == '!' && ScanOperator(text, pos).0 == ExclamationEqualsToken
    ensures PunctuationText(ExclamationEqualsToken) == Some(text[pos..ScanOperator(text, pos).1])
  {
    ShortSlice(text, pos, ScanOperator(text, pos).1);
  }

  lemma ExclamationText(text: string, pos: nat)
    requires pos < |text| && text[pos] == '!' && ScanOperator(text, pos).0 == ExclamationToken
    ensures PunctuationText(ExclamationToken) == Some(text[pos..ScanOperator(text, pos).1])
  {
    ShortSlice(text, pos, ScanOperator(text, pos).1);
  }

  lemma ExclamationCharText(text: string, pos: nat)
    requires pos < |text| && text[pos] == '!'
    ensures PunctuationText(ScanOperator(text, pos).0) == Some(text[pos..ScanOperator(text, pos).1])
  {
    var k := ScanOperator(text, pos).0;
    if k == ExclamationEqualsToken {
      ExclamationEqualsText(text, pos);
    } else {
      ExclamationText(text, pos);
    }
  }

  lemma LessThanLessThanEqualsText(text: string, pos: nat)
    requires pos < |text| && text[pos] == '<' && ScanOperator(text, pos).0 == LessThanLessThanEqualsToken
    ensures PunctuationText(LessThanLessThanEqualsToken) == Some(text[pos..ScanOperator(text, pos).1])
  {
    ShortSlice(text, pos, ScanOperator(text, pos).1);
  }

  lemma LessThanLessThanText(text: string, pos: nat)
    requires pos < |text| && text[pos] == '<' && ScanOperator(text, pos).0 == LessThanLessThanToken
    ensures PunctuationText(LessThanLessThanToken) == Some(text[pos..ScanOperator(text, pos).1])
  {
    ShortSlice(text, pos, ScanOperator(text, pos).1);
  }

  lemma LessThanEqualsText(text: string, pos: nat)
    requires pos < |text| && text[pos] == '<' && ScanOperator(text, pos).0 == LessThanEqualsToken
    ensures PunctuationText(LessThanEqualsToken) == Some(text[pos..ScanOperator(text, pos).1])
  {
    ShortSlice(text, pos, ScanOperator(text, pos).1);
  }

  lemma LessThanText(text: string, pos: nat)
    requires pos < |text| && text[pos] == '<' && ScanOperator(text, pos).0 == LessThanToken
    ensures PunctuationText(LessThanToken) == Some(text[pos..ScanOperator(text, pos).1])
  {
    ShortSlice(text, pos, ScanOperator(text, pos).1);
  }

  lemma LessThanCharText(text: string, pos: nat)
    requires pos < |text| && text[pos] == '<'
    ensures PunctuationText(ScanOperator(text, pos).0) == Some(text[pos..ScanOperator(text, pos).1])
  {
    var k := ScanOperator(text, pos).0;
    if k == LessThanLessThanEqualsToken {
      LessThanLessThanEqualsText(text, pos);
    } else if k == LessThanLessThanToken {
      LessThanLessThanText(text, pos);
    } else if k == LessThanEqualsToken {
      LessThanEqualsText(text, pos);
    } else {
      LessThanText(text, pos);
    }
  }

  lemma GreaterThanEqualsText(text: string, pos: nat)
    requires pos < |text| && text[pos] == '>' && ScanOperator(text, pos).0 == GreaterThanEqualsToken
    ensures PunctuationText(GreaterThanEqualsToken) == Some(text[pos..ScanOperator(text, pos).1])
  {
    ShortSlice(text, pos, ScanOperator(text, pos).1);
  }

  lemma GreaterThanGreaterThanEqualsText(text: string, pos: nat)
    requires pos < |text| && text[pos] == '>' && ScanOperator(text, pos).0 == GreaterThanGreaterThanEqualsToken
    ensures PunctuationText(GreaterThanGreaterThanEqualsToken) == Some(text[pos..ScanOperator(text, pos).1])
  {
    ShortSlice(text, pos, ScanOperator(text, pos).1);
  }

  lemma GreaterThanGreaterThanGreaterThanEqualsText(text: string, pos: nat)
    requires pos < |text| && text[pos] == '>' && ScanOperator(text, pos).0 == GreaterThanGreaterThanGreaterThanEqualsToken
    ensures PunctuationText(GreaterThanGreaterThanGreaterThanEqualsToken) == Some(text[pos..ScanOperator(text, pos).1])
  {
    ShortSlice(text, pos, ScanOperator(text, pos).1);
  }

  lemma GreaterThanText(text: string, pos: nat)
    requires pos < |text| && text[pos] == '>' && ScanOperator(text, pos).0 == GreaterThanToken
    ensures PunctuationText(GreaterThanToken) == Some(text[pos..ScanOperator(text, pos).1])
  {
    ShortSlice(text, pos, ScanOperator(text, pos).1);
  }

  lemma GreaterThanCharText(text: string, pos: nat)
    requires pos < |text| && text[pos] == '>'
    ensures PunctuationText(ScanOperator(text, pos).0) == Some(text[pos..ScanOperator(text, pos).1])
  {
    var k := ScanOperator(text, pos).0;
    if k == GreaterThanEqualsToken {
      GreaterThanEqualsText(text, pos);
    } else if k == GreaterThanGreaterThanEqualsToken {
      GreaterThanGreaterThanEqualsText(text, pos);
    } else if k == GreaterThanGreaterThanGreaterThanEqualsToken {
      GreaterThanGreaterThanGreaterThanEqualsText(text, pos);
    } else {
      GreaterThanText(text, pos);
    }
  }

  /** A punctuation token's fixed text is exactly the text it was read from. */
  lemma OperatorText(text: string, pos: nat)
    requires pos < |text|
    requires IsOperatorStart(text[pos])
    ensures Suffix(ScanOperator(text, pos).0) == TokenSuffix
    ensures GetText(ScanOperator(text, pos).0) == Some(text[pos..ScanOperator(text, pos).1])
  {
    var c := text[pos];
    if c == '.' {
      PeriodText(text, pos);
    } else if c == ',' {
      CommaText(text, pos);
    } else if c == '(' {
      OpenParenText(text, pos);
    } else if c == ')' {
      CloseParenText(text, pos);
    } else if c == '{' {
      OpenBraceText(text, pos);
    } else if c == '}' {
      CloseBraceText(text, pos);
    } else if c == '[' {
      OpenBracketText(text, pos);
    } else if c == ']' {
      CloseBracketText(text, pos);
    } else if c == ';' {
      SemicolonText(text, pos);
    } else if c == ':' {
      ColonText(text, pos);
    } else if c == '~' {
      TildeText(text, pos);
    } else if c == '%' {
      PercentCharText(text, pos);
    } else if c == '^' {
      CaretCharText(text, pos);
    } else if c == '?' {
      QuestionCharText(text, pos);
    } else if c == '+' {
      PlusCharText(text, pos);
    } else if c == '-' {
      MinusCharText(text, pos);
    } else if c == '/' {
      SlashCharText(text, pos);
    } else if c == '*' {
      AsteriskCharText(text, pos);
    } else if c == '&' {
      AmpersandCharText(text, pos);
    } else if c == '|' {
      PipeCharText(text, pos);
    } else if c == '=' {
      EqualsCharText(text, pos);
    } else if c == '!' {
      ExclamationCharText(text, pos);
    } else if c == '<' {
      LessThanCharText(text, pos);
    } else if c == '>' {
      GreaterThanCharText(text, pos);
    }
  }

  /** The text a lexed token shows is the text it was read from. */
  lemma ScanTokenText(text: string, pos: nat)
    requires pos <= |text|
    ensures GetText(ScanToken(text, pos).kind).GetOr(text[pos..ScanToken(text, pos).end]) ==
            text[pos..ScanToken(text, pos).end]
  {
    var c := Peek(text, pos);
    if c != '\0' && IsOperatorStart(c) {
      OperatorText(text, pos);
    } else if c != '\0' && (c == '_' || IsLetter(c)) {
      KeywordKindRoundTrip(text[pos..IdentifierEnd(text, pos)]);
    } else {
      TextlessToken(text, pos);
    }
  }

  lemma TextlessToken(text: string, pos: nat)
    requires pos <= |text|
    requires var c := Peek(text, pos); c == '\0' || !(IsOperatorStart(c) || c == '_' || IsLetter(c))
    ensures GetText(ScanToken(text, pos).kind) == None
  {
    var c := Peek(text, pos);
    if c == '"' || c == '\'' {
      LiteralTokensTextless(ScanToken(text, pos).kind);
    } else if c != '\0' && IsAsciiDigit(c) {
      LiteralTokensTextless(ScanToken(text, pos).kind);
    } else {
      EndAndBadTextless(ScanToken(text, pos).kind);
    }
  }

  lemma LiteralTokensTextless(k: SyntaxKind)
    requires k == StringLiteralToken || k == CharacterLiteralToken || k == NumericLiteralToken
    ensures GetText(k) == None
  {
  }

  lemma EndAndBadTextless(k: SyntaxKind)
    requires k == EndOfFileToken || k == BadToken
    ensures GetText(k) == None
  {
  }

  /** One lexed token with its trivia covers exactly the text it was read from. */
  lemma LexInternalText(text: string, pos: nat)
    requires pos <= |text|
    ensures pos <= LexInternal(text, pos).end <= |text|
    ensures FullText(LexInternal(text, pos).token) == text[pos..LexInternal(text, pos).end]
  {
    LexInternalBounds(text, pos);
    var lead := ScanTrivia(text, pos, false);
    var ts := ScanToken(text, lead.end);
    ScanTokenBounds(text, lead.end);
    var trail := ScanTrivia(text, ts.end, true);
    ScanTriviaText(text, pos, false);
    ScanTokenText(text, lead.end);
    ScanTriviaText(text, ts.end, true);
    SliceJoin(text, pos, lead.end, ts.end);
    SliceJoin(text, pos, ts.end, trail.end);
  }

  /** The text of the skipped bad tokens with their trivia. */
  function SkippedText(bad: seq<Token>): string
  {
    if bad == [] then "" else SkippedText(bad[..|bad| - 1]) + FullText(bad[|bad| - 1])
  }

  lemma {:induction false} SkippedTriviaText(bad: seq<Token>)
    ensures TriviaListText(SkippedTrivia(bad)) == SkippedText(bad)
    decreases |bad|
  {
    if bad != [] {
      var last := bad[|bad| - 1];
      SkippedTriviaText(bad[..|bad| - 1]);
      TriviaListTextAppend(SkippedTrivia(bad[..|bad| - 1]), last.leading + [SkippedTokens(last)] + last.trailing);
      TriviaListTextAppend(last.leading + [SkippedTokens(last)], last.trailing);
      TriviaListTextAppend(last.leading, [SkippedTokens(last)]);
      assert TriviaListText([SkippedTokens(last)]) == TriviaText(SkippedTokens(last)) + TriviaListText([]);
    }
  }

  /** A bad token's full text extends the skipped text. */
  lemma SkipText(text: string, start: nat, pos: nat, bad: seq<Token>, tok: Token, end: nat)
    requires start <= pos <= end <= |text|
    requires SkippedText(bad) == text[start..pos]
    requires FullText(tok) == text[pos..end]
    ensures SkippedText(bad + [tok]) == text[start..end]
  {
    assert (bad + [tok])[..|bad|] == bad;
    SliceJoin(text, start, pos, end);
  }

  /** Putting the skipped tokens in front of a token's leading trivia extends its full text. */
  lemma AbsorbText(text: string, start: nat, pos: nat, bad: seq<Token>, tok: Token, end: nat)
    requires start <= pos <= end <= |text|
    requires SkippedText(bad) == text[start..pos]
    requires FullText(tok) == text[pos..end]
    ensures FullText(tok.(leading := SkippedTrivia(bad) + tok.leading)) == text[start..end]
  {
    SkippedTriviaText(bad);
    TriviaListTextAppend(SkippedTrivia(bad), tok.leading);
    SliceJoin(text, start, pos, end);
  }

  lemma {:induction false} LexFromText(text: string, start: nat, pos: nat, bad: seq<Token>)
    requires start <= pos <= |text|
    requires SkippedText(bad) == text[start..pos]
    ensures FullText(LexFrom(text, pos, bad).token) == text[start..LexFrom(text, pos, bad).end]
    decreases |text| - pos
  {
    var l := LexInternal(text, pos);
    LexInternalText(text, pos);
    if l.token.kind == BadToken {
      LexInternalBounds(text, pos);
      SkipText(text, start, pos, bad, l.token, l.end);
      LexFromText(text, start, l.end, bad + [l.token]);
    } else if |bad| > 0 {
      AbsorbText(text, start, pos, bad, l.token, l.end);
    }
  }

  /**
   * Lexing is lossless: the next token, with its trivia and the bad tokens it
   * absorbed, covers exactly the text from `pos` to where lexing stopped.
   */
  lemma LexNextText(text: string, pos: nat)
    requires pos <= |text|
    ensures FullText(LexNext(text, pos).token) == text[pos..LexNext(text, pos).end]
  {
    LexFromText(text, pos, pos, []);
  }

  lemma {:induction false} LexFromHasText(text: string, pos: nat, bad: seq<Token>)
    requires pos <= |text|
    ensures LexFrom(text, pos, bad).token.text.Some?
    decreases |text| - pos
  {
    var l := LexInternal(text, pos);
    LexInternalBounds(text, pos);
    assert l.token.text.Some?;
    if l.token.kind == BadToken {
      LexFromHasText(text, l.end, bad + [l.token]);
    }
  }

  /** The lexer never hands out a missing token: every token has its text. */
  lemma LexNextHasText(text: string, pos: nat)
    requires pos <= |text|
    ensures LexNext(text, pos).token.text.Some?
  {
    LexFromHasText(text, pos, []);
  }

  // ---------------------------------------------------------------------------
  // Trivia

  predicate IsLineBreak(t: Trivia) { t.Trivia? && t.kind == EndOfLineTrivia }

  /** The kinds a single trivia piece can have. */
  predicate IsPieceKind(k: SyntaxKind)
  {
    k == WhitespaceTrivia || k == EndOfLineTrivia || k == SingleLineCommentTrivia || k == MultiLineCommentTrivia
  }

  /** Every trivia read is a non-empty piece of text of one of the trivia kinds. */
  lemma {:induction false} ScanTriviaPieces(text: string, pos: nat, trailing: bool)
    requires pos <= |text|
    ensures forall t :: t in ScanTrivia(text, pos, trailing).trivia ==>
      t.Trivia? && |t.text| > 0 && IsPieceKind(t.kind)
    decreases |text| - pos
  {
    match TriviaPiece(text, pos)
    case None =>
    case Some(p) =>
      if !(trailing && p.kind == EndOfLineTrivia) {
        ScanTriviaPieces(text, p.end, trailing);
      }
  }

  /** No line break before the last trivia. */
  predicate LineBreakOnlyLast(ts: seq<Trivia>)
  {
    forall i :: 0 <= i < |ts| - 1 ==> !IsLineBreak(ts[i])
  }

  lemma ConsLineBreakOnlyLast(t: Trivia, rest: seq<Trivia>)
    requires !IsLineBreak(t) && LineBreakOnlyLast(rest)
    ensures LineBreakOnlyLast([t] + rest)
  {
    var ts := [t] + rest;
    forall i | 0 <= i < |ts| - 1 ensures !IsLineBreak(ts[i]) {
      if i > 0 {
        assert ts[i] == rest[i - 1];
      }
    }
  }

  /** Trailing trivia holds at most one line break, and only as its last piece. */
  lemma {:induction false} TrailingTriviaEndsAtLineBreak(text: string, pos: nat)
    requires pos <= |text|
    ensures LineBreakOnlyLast(ScanTrivia(text, pos, true).trivia)
    decreases |text| - pos
  {
    match TriviaPiece(text, pos)
    case None =>
    case Some(p) =>
      if p.kind != EndOfLineTrivia {
        TrailingTriviaEndsAtLineBreak(text, p.end);
        ConsLineBreakOnlyLast(Trivia(p.kind, text[pos..p.end], p.diagnostics), ScanTrivia(text, p.end, true).trivia);
      }
  }

  /**
   * Trivia reading stops only where no trivia starts, or (for trailing trivia)
   * right after a line break.
   */
  lemma {:induction false} TriviaIsMaximal(text: string, pos: nat, trailing: bool)
    requires pos <= |text|
    ensures var r := ScanTrivia(text, pos, trailing);
      TriviaPiece(text, r.end).None? ||
      (trailing && |r.trivia| > 0 && IsLineBreak(r.trivia[|r.trivia| - 1]))
    decreases |text| - pos
  {
    match TriviaPiece(text, pos)
    case None =>
    case Some(p) =>
      if !(trailing && p.kind == EndOfLineTrivia) {
        TriviaIsMaximal(text, p.end, trailing);
        var rest := ScanTrivia(text, p.end, trailing).trivia;
        var t := Trivia(p.kind, text[pos..p.end], p.diagnostics);
        assert ScanTrivia(text, pos, trailing).trivia == [t] + rest;
      }
  }

  /** A carriage return followed by a line feed is one end-of-line trivia. */
  lemma CrLfIsOneTrivia(text: string, pos: nat, trailing: bool)
    requires pos + 1 < |text| && text[pos] == '\r' && text[pos + 1] == '\n'
    ensures |ScanTrivia(text, pos, trailing).trivia| > 0
    ensures ScanTrivia(text, pos, trailing).trivia[0] == Trivia(EndOfLineTrivia, "\r\n", [])
  {
    ShortSlice(text, pos, pos + 2);
  }

  /** An unclosed multi-line comment runs to the end of the text and is reported once. */
  lemma UnterminatedCommentReported(text: string, pos: nat)
    requires pos + 1 < |text| && text[pos] == '/' && text[pos + 1] == '*'
    requires forall i :: pos + 2 <= i < |text| ==> text[i] != '\0' && !ClosesAt(text, i)
    ensures TriviaPiece(text, pos) ==
      Some(Piece(MultiLineCommentTrivia, |text|, [SyntaxDiagnostic(UnterminatedComment, 0, 2)]))
  {
    BlockCommentEndSpans(text, pos + 2);
  }

  // ---------------------------------------------------------------------------
  // Tokens

  /** A character that starts no token. */
  predicate IsBadCharacter(c: char)
  {
    c != '\0' && !IsOperatorStart(c) && c != '"' && c != '\'' && !IsAsciiDigit(c) && c != '_' && !IsLetter(c)
  }

  /** A bad token is read exactly where a character starts no token. */
  lemma BadTokenIsBadCharacter(text: string, pos: nat)
    requires pos <= |text|
    ensures ScanToken(text, pos).kind == BadToken <==> pos < |text| && IsBadCharacter(text[pos])
  {
    var c := Peek(text, pos);
    if c != '\0' && IsOperatorStart(c) {
      OperatorText(text, pos);
      EndAndBadTextless(BadToken);
    } else if c != '\0' && (c == '_' || IsLetter(c)) && !IsAsciiDigit(c) {
      KeywordKindRoundTrip(text[pos..IdentifierEnd(text, pos)]);
    }
  }

  /** A character that starts no token is skipped alone and reported as unexpected. */
  lemma BadCharacterToken(text: string, pos: nat)
    requires pos < |text| && IsBadCharacter(text[pos])
    ensures ScanToken(text, pos) ==
      TokenScan(BadToken, pos + 1, NoValue, [SyntaxDiagnostic(BadCharacter(text[pos]), 0, 1)])
  {
  }

  /** At the end of the text (or a `'\0'`) the token is the empty end-of-file token. */
  lemma EndOfFileDoesNotAdvance(text: string, pos: nat)
    requires pos <= |text|
    requires Peek(text, pos) == '\0'
    ensures ScanToken(text, pos) == TokenScan(EndOfFileToken, pos, NoValue, [])
  {
  }

  lemma LexInternalAtEnd(text: string)
    ensures LexInternal(text, |text|) == Lexed(Token(EndOfFileToken, Some(""), NoValue, [], [], []), |text|)
  {
    var n := |text|;
    assert ScanTrivia(text, n, false) == TriviaScan([], n);
    assert ScanToken(text, n) == TokenScan(EndOfFileToken, n, NoValue, []);
    assert ScanTrivia(text, n, true) == TriviaScan([], n);
    EndAndBadTextless(EndOfFileToken);
    assert text[n..n] == "";
    assert Shift([], 0) == [];
  }

  /** Lexing at the end of the text gives the end-of-file token, again and again. */
  lemma LexNextAtEnd(text: string)
    ensures LexNext(text, |text|) == Lexed(Token(EndOfFileToken, Some(""), NoValue, [], [], []), |text|)
  {
    LexInternalAtEnd(text);
  }

  /** `>>` and `>>>` not followed by `=` are read as a single `>`; the parser joins them. */
  lemma GreaterThanBacksOff(text: string, pos: nat)
    requires pos + 1 < |text| && text[pos] == '>' && text[pos + 1] == '>'
    requires Peek(text, pos + 2) != '='
    requires !(Peek(text, pos + 2) == '>' && Peek(text, pos + 3) == '=')
    ensures ScanToken(text, pos).kind == GreaterThanToken
    ensures ScanToken(text, pos).end == pos + 1
  {
  }

  /**
   * Maximal munch for `op=`: an operator character followed by `=` is read as
   * one two-character token (`+=`, `==`, `<=`, `!=`, ...).
   */
  lemma OperatorEqualsMunch(text: string, pos: nat)
    requires pos + 1 < |text| && text[pos + 1] == '='
    requires var c := text[pos];
      c == '+' || c == '-' || c == '*' || c == '/' || c == '%' || c == '&' || c == '|' || c == '^' ||
      c == '!' || c == '=' || c == '<' || c == '>'
    ensures ScanOperator(text, pos).1 == pos + 2
  {
  }

  /** Maximal munch for the doubled operators with `=`: `**=`, `<<=`, `>>=` and `??=` are one token. */
  lemma DoubledEqualsMunch(text: string, pos: nat)
    requires pos + 2 < |text| && text[pos + 1] == text[pos] && text[pos + 2] == '='
    requires var c := text[pos]; c == '*' || c == '<' || c == '>' || c == '?'
    ensures ScanOperator(text, pos).1 == pos + 3
  {
  }

  /** Maximal munch for `>>>=`. */
  lemma TripleShiftEqualsMunch(text: string, pos: nat)
    requires pos + 3 < |text| && text[pos] == '>' && text[pos + 1] == '>' && text[pos + 2] == '>'
    requires text[pos + 3] == '='
    ensures ScanOperator(text, pos) == (GreaterThanGreaterThanGreaterThanEqualsToken, pos + 4)
  {
  }

  /** The token read at an operator character is the operator `ScanOperator` reads. */
  lemma ScanTokenAtOperator(text: string, pos: nat)
    requires pos < |text| && IsOperatorStart(text[pos])
    ensures ScanToken(text, pos) == TokenScan(ScanOperator(text, pos).0, ScanOperator(text, pos).1, NoValue, [])
  {
  }

  /** At a quote the token is a string or character literal. */
  lemma ScanTokenAtQuote(text: string, pos: nat)
    requires pos < |text| && (text[pos] == '"' || text[pos] == '\'')
    ensures ScanToken(text, pos) == ScanStringLiteral(text, pos, text[pos] == '\'')
  {
  }

  /** At a digit the token is a numeric literal. */
  lemma ScanTokenAtDigit(text: string, pos: nat)
    requires pos < |text| && IsAsciiDigit(text[pos])
    ensures ScanToken(text, pos) == ScanNumber(text, pos)
  {
  }

  /** At a letter or `_` the token is an identifier or keyword, as long as `IdentifierEnd` reaches. */
  lemma ScanTokenAtLetter(text: string, pos: nat)
    requires pos < |text| && (text[pos] == '_' || IsLetter(text[pos]))
    ensures var e := IdentifierEnd(text, pos);
      ScanToken(text, pos) == TokenScan(KeywordKind(text[pos..e]), e, NoValue, [])
  {
  }
}
